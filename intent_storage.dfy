/**
 * The browser-side log of submitted intents, kept newest first under one
 * localStorage key. The stored value is held already parsed: None when the
 * key is absent, otherwise the list the last write serialised.
 */
module IntentStorage {
  import opened Wrappers
  import opened JsSemantics
  import opened IsoTime

  const StorageKey: string := "submitted_intents"

  datatype SubmittedIntent = SubmittedIntent(
    id: string, kind: string, requestId: string, submittedAt: string, intentId: Option<string>)

  /** The record id `${Date.now()}-${random}`: the clock reading in decimal, a dash, the random characters. */
  function RecordId(nowMs: nat, randomPart: string): (id: string)
    ensures |id| == |NatToDecimal(nowMs)| + 1 + |randomPart|
    ensures id[..|NatToDecimal(nowMs)|] == NatToDecimal(nowMs)
    ensures id[|NatToDecimal(nowMs)|] == '-' && id[|NatToDecimal(nowMs)| + 1..] == randomPart
  {
    NatToDecimal(nowMs) + "-" + randomPart
  }

  /** `findIndex(intent => intent.id === id)`: the first match, or -1. */
  function FindIndex(intents: seq<SubmittedIntent>, id: string): (i: int)
    ensures -1 <= i < |intents|
    ensures i == -1 <==> forall k :: 0 <= k < |intents| ==> intents[k].id != id
    ensures i >= 0 ==> intents[i].id == id && forall k :: 0 <= k < i ==> intents[k].id != id
  {
    if intents == [] then -1
    else if intents[0].id == id then 0
    else
      var j := FindIndex(intents[1..], id);
      if j == -1 then -1 else j + 1
  }

  /** The list after `intents[index].intentId = intentId` at the first record with the given id. */
  function WithIntentId(intents: seq<SubmittedIntent>, id: string, intentId: string): (r: seq<SubmittedIntent>)
    ensures |r| == |intents|
    ensures FindIndex(intents, id) == -1 ==> r == intents
    ensures forall k :: 0 <= k < |intents| && k != FindIndex(intents, id) ==> r[k] == intents[k]
    ensures FindIndex(intents, id) >= 0 ==>
              r[FindIndex(intents, id)] == intents[FindIndex(intents, id)].(intentId := Some(intentId))
  {
    var i := FindIndex(intents, id);
    if i == -1 then intents else intents[i := intents[i].(intentId := Some(intentId))]
  }

  class IntentStore {
    var stored: Option<seq<SubmittedIntent>>

    /** A browser profile in which nothing has been saved yet. */
    constructor ()
      ensures stored == None
    {
      stored := None;
    }

    /** getSubmittedIntents: the stored list, or `[]` when nothing is stored. */
    function Intents(): (r: seq<SubmittedIntent>)
      reads this
      ensures stored.None? ==> r == []
      ensures stored.Some? ==> r == stored.value
    {
      if stored.Some? then stored.value else []
    }

    /**
     * saveSubmittedIntent: the new record goes in front of the stored list and
     * the whole list is written back. `nowMs` and `randomPart` stand for
     * `Date.now()` and the base-36 random characters, `submittedAtMs` for
     * the second clock reading behind `new Date()`. `intentId` is whatever the
     * caller's object carries under that key; the spread passes it through.
     */
    method Save(kind: string, requestId: string, intentId: Option<string>, nowMs: nat, randomPart: string,
                submittedAtMs: nat)
      returns (created: SubmittedIntent)
      requires submittedAtMs <= MaxTimeMs
      modifies this
      ensures created == SubmittedIntent(RecordId(nowMs, randomPart), kind, requestId, IsoInstant(submittedAtMs), intentId)
      ensures stored == Some([created] + old(Intents()))
    {
      var intents := Intents();
      created := SubmittedIntent(RecordId(nowMs, randomPart), kind, requestId, IsoInstant(submittedAtMs), intentId);
      intents := [created] + intents;
      stored := Some(intents);
    }

    /** updateIntentIntentId: sets `intentId` on the first record with the id; writes nothing when there is none. */
    method UpdateIntentId(id: string, intentId: string)
      modifies this
      ensures FindIndex(old(Intents()), id) == -1 ==> stored == old(stored)
      ensures FindIndex(old(Intents()), id) >= 0 ==> stored == Some(WithIntentId(old(Intents()), id, intentId))
    {
      var intents := Intents();
      var index := FindIndex(intents, id);
      if index != -1 {
        intents := intents[index := intents[index].(intentId := Some(intentId))];
        stored := Some(intents);
      }
    }

    /** clearSubmittedIntents: removes the key. */
    method Clear()
      modifies this
      ensures stored == None
      ensures Intents() == []
    {
      stored := None;
    }
  }

  /** After a save, the list is one longer, starts with the new record, and keeps every older record in order. */
  lemma SaveKeepsHistory(before: seq<SubmittedIntent>, created: SubmittedIntent, after: seq<SubmittedIntent>)
    requires after == [created] + before
    ensures |after| == |before| + 1 && after[0] == created && after[1..] == before
    ensures forall k :: 0 <= k < |before| ==> after[k + 1] == before[k]
  {
  }

  /** Looking up the record just saved finds it in front, whatever older records share its id. */
  lemma UpdateAfterSave(before: seq<SubmittedIntent>, created: SubmittedIntent, intentId: string)
    ensures FindIndex([created] + before, created.id) == 0
    ensures WithIntentId([created] + before, created.id, intentId)
            == [created.(intentId := Some(intentId))] + before
  {
    var after := [created] + before;
    assert after[0].id == created.id;
    var r := WithIntentId(after, created.id, intentId);
    assert r[0] == created.(intentId := Some(intentId));
    assert r[1..] == before;
  }

  /** Setting an intent id twice on the same record keeps only the later id. */
  lemma {:induction false} WithIntentIdTwice(intents: seq<SubmittedIntent>, id: string, first: string, second: string)
    ensures WithIntentId(WithIntentId(intents, id, first), id, second) == WithIntentId(intents, id, second)
  {
    var once := WithIntentId(intents, id, first);
    var i := FindIndex(intents, id);
    if i >= 0 {
      assert once[i].id == id;
      assert forall k :: 0 <= k < i ==> once[k].id != id;
      assert FindIndex(once, id) == i;
    } else {
      assert once == intents;
    }
  }
}
