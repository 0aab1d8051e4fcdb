/**
 * The token metadata of the MPT issuance form (the XLS-89 schema of the XRPL
 * Standards): the sparse record built from the structured fields, the record
 * read from raw JSON text, and its upper-case hex encoding.
 */
module MptMetadata {
  import opened Wrappers
  import opened JsSemantics
  import opened Json
  import opened Encoding
  import opened ListEdits

  /** One element of `us`: a url, its category and its title. */
  datatype MetadataUrl = MetadataUrl(u: string, c: string, t: string)

  /** One row of the additional-information editor. */
  datatype InfoRow = InfoRow(key: string, value: string)

  /** The structured form's metadata fields. */
  datatype MetadataFields = MetadataFields(
    ticker: string, tokenName: string, tokenDescription: string, iconUrl: string,
    accessControl: string, assetClass: string, issuerName: string,
    urls: seq<MetadataUrl>, additionalInfo: seq<InfoRow>)

  /** The seven short keys, in the order the builder adds them. */
  const ShortKeys: seq<string> := ["t", "n", "d", "i", "ac", "as", "in"]

  /** The field behind each short key, in the same order. */
  function ShortValues(f: MetadataFields): (vs: seq<string>)
    ensures |vs| == |ShortKeys|
  {
    [f.ticker, f.tokenName, f.tokenDescription, f.iconUrl, f.accessControl, f.assetClass, f.issuerName]
  }

  function UrlJson(url: MetadataUrl): Json {
    JObject([Member("u", JString(url.u)), Member("c", JString(url.c)), Member("t", JString(url.t))])
  }

  /** `urls.filter(url => url.u)`. */
  function KeptUrls(urls: seq<MetadataUrl>): (r: seq<MetadataUrl>)
    ensures forall x :: x in r <==> x in urls && x.u != ""
    ensures |r| <= |urls|
  {
    if urls == [] then []
    else (if urls[0].u != "" then [urls[0]] else []) + KeptUrls(urls[1..])
  }

  function UrlsJson(urls: seq<MetadataUrl>): (r: seq<Json>)
    ensures |r| == |urls|
    ensures forall k :: 0 <= k < |urls| ==> r[k] == UrlJson(urls[k])
  {
    seq(|urls|, k requires 0 <= k < |urls| => UrlJson(urls[k]))
  }

  /** A row the `forEach` writes into `ai`. */
  predicate Admitted(row: InfoRow) {
    row.key != "" && row.value != ""
  }

  /** The `ai` object after the `forEach` over the first rows: at most one member per row, each a non-empty key with a non-empty string. */
  function Extras(rows: seq<InfoRow>): (r: seq<Member>)
    ensures |r| <= |rows|
    ensures forall i :: 0 <= i < |r| ==> r[i].key != "" && r[i].value.JString? && r[i].value.s != ""
  {
    if rows == [] then []
    else
      var last := rows[|rows| - 1];
      var before := Extras(rows[..|rows| - 1]);
      if Admitted(last) then Put(before, last.key, JString(last.value)) else before
  }

  /** Every key the builder can assign, in the order it assigns them. */
  const KeyOrder: seq<string> := ["t", "n", "d", "i", "ac", "as", "in", "us", "ai"]

  /** A member the builder may assign, and whether its condition holds. */
  datatype Slot = Slot(isSet: bool, member: Member)

  function ShortSlot(k: string, v: string): Slot {
    Slot(v != "", Member(k, JString(v)))
  }

  /** The seven short-key assignments, in order. */
  function ShortSlots(f: MetadataFields): seq<Slot> {
    [ShortSlot("t", f.ticker)] + [ShortSlot("n", f.tokenName)] + [ShortSlot("d", f.tokenDescription)]
      + [ShortSlot("i", f.iconUrl)] + [ShortSlot("ac", f.accessControl)] + [ShortSlot("as", f.assetClass)]
      + [ShortSlot("in", f.issuerName)]
  }

  function UsSlot(f: MetadataFields): Slot {
    Slot(|f.urls| > 0, Member("us", JArray(UrlsJson(KeptUrls(f.urls)))))
  }

  function AiSlot(f: MetadataFields): Slot {
    Slot(|Extras(f.additionalInfo)| > 0, Member("ai", JObject(Extras(f.additionalInfo))))
  }

  /** The builder's nine conditional assignments, in order. */
  function Slots(f: MetadataFields): seq<Slot> {
    ShortSlots(f) + [UsSlot(f)] + [AiSlot(f)]
  }

  /** Slot j carries key j of KeyOrder, under the condition the builder tests for it. */
  lemma SlotsAt(f: MetadataFields)
    ensures |Slots(f)| == |KeyOrder|
    ensures forall j :: 0 <= j < |Slots(f)| ==> Slots(f)[j].member.key == KeyOrder[j]
    ensures forall j :: 0 <= j < |ShortKeys| ==> Slots(f)[j] == ShortSlot(ShortKeys[j], ShortValues(f)[j])
    ensures Slots(f)[7] == UsSlot(f) && Slots(f)[8] == AiSlot(f)
  {
    var s := Slots(f);
    assert s == [ShortSlot("t", f.ticker), ShortSlot("n", f.tokenName), ShortSlot("d", f.tokenDescription),
                 ShortSlot("i", f.iconUrl), ShortSlot("ac", f.accessControl), ShortSlot("as", f.assetClass),
                 ShortSlot("in", f.issuerName), UsSlot(f), AiSlot(f)];
  }

  /** One conditional assignment `if (condition) record[key] = value;`. */
  function Assign(ms: seq<Member>, s: Slot): seq<Member> {
    if s.isSet then Put(ms, s.member.key, s.member.value) else ms
  }

  /** The record after running the given assignments on `{}`. */
  function Fill(slots: seq<Slot>): seq<Member> {
    if slots == [] then [] else Assign(Fill(slots[..|slots| - 1]), slots[|slots| - 1])
  }

  /** The members of the record the builder assigns, `null` or not. */
  function Record(f: MetadataFields): seq<Member> {
    Fill(Slots(f))
  }

  /** The record buildMetadata returns: its members in insertion order, or None for `null`, which it is exactly when nothing is filled in. */
  function StructuredMetadata(f: MetadataFields): (r: Option<seq<Member>>)
    ensures r.None? <==> NothingFilled(f)
    ensures r.Some? ==> r.value == Record(f)
  {
    var ms := Record(f);
    RecordEmptyIffBlank(f);
    if |ms| > 0 then Some(ms) else None
  }

  lemma FillSnoc(done: seq<Slot>, s: Slot)
    ensures Fill(done + [s]) == Assign(Fill(done), s)
  {
    assert (done + [s])[..|done|] == done;
  }

  /** One `if (v) metadata.k = v;` line of the builder; `done` lists the lines already run. */
  method AssignIfSet(metadata: seq<Member>, k: string, v: string, ghost done: seq<Slot>) returns (r: seq<Member>)
    requires metadata == Fill(done)
    ensures r == Fill(done + [ShortSlot(k, v)])
  {
    FillSnoc(done, ShortSlot(k, v));
    r := metadata;
    if v != "" {
      r := Put(r, k, JString(v));
    }
  }

  /** The `forEach` over the additional-information rows: each admitted row assigns `ai[key] = value`. */
  method CollectExtras(rows: seq<InfoRow>) returns (ai: seq<Member>)
    ensures ai == Extras(rows)
  {
    ai := [];
    var i := 0;
    while i < |rows|
      invariant 0 <= i <= |rows|
      invariant ai == Extras(rows[..i])
    {
      var row := rows[i];
      if row.key != "" && row.value != "" {
        ai := Put(ai, row.key, JString(row.value));
      }
      assert rows[..i + 1][..i] == rows[..i];
      i := i + 1;
    }
    assert rows[..i] == rows;
  }

  /** buildMetadata: conditional assignments into an empty record, then the `forEach` filling `ai`. */
  method BuildMetadata(f: MetadataFields) returns (r: Option<seq<Member>>)
    ensures r == StructuredMetadata(f)
  {
    var metadata: seq<Member> := [];
    metadata := AssignIfSet(metadata, "t", f.ticker, []);
    assert [] + [ShortSlot("t", f.ticker)] == [ShortSlot("t", f.ticker)];
    ghost var done := [ShortSlot("t", f.ticker)];
    metadata := AssignIfSet(metadata, "n", f.tokenName, done);
    done := done + [ShortSlot("n", f.tokenName)];
    metadata := AssignIfSet(metadata, "d", f.tokenDescription, done);
    done := done + [ShortSlot("d", f.tokenDescription)];
    metadata := AssignIfSet(metadata, "i", f.iconUrl, done);
    done := done + [ShortSlot("i", f.iconUrl)];
    metadata := AssignIfSet(metadata, "ac", f.accessControl, done);
    done := done + [ShortSlot("ac", f.accessControl)];
    metadata := AssignIfSet(metadata, "as", f.assetClass, done);
    done := done + [ShortSlot("as", f.assetClass)];
    metadata := AssignIfSet(metadata, "in", f.issuerName, done);
    done := done + [ShortSlot("in", f.issuerName)];
    assert done == ShortSlots(f);

    FillSnoc(done, UsSlot(f));
    if |f.urls| > 0 {
      metadata := Put(metadata, "us", JArray(UrlsJson(KeptUrls(f.urls))));
    }
    done := done + [UsSlot(f)];

    FillSnoc(done, AiSlot(f));
    if |f.additionalInfo| > 0 {
      var ai := CollectExtras(f.additionalInfo);
      if |ai| > 0 {
        metadata := Put(metadata, "ai", JObject(ai));
      }
    } else {
      assert f.additionalInfo == [];
    }
    done := done + [AiSlot(f)];
    assert metadata == Fill(Slots(f));
    r := if |metadata| > 0 then Some(metadata) else None;
  }

  // ---------------------------------------------------------------------------
  // What the record holds

  /** Some assignment that runs carries key `k`. */
  predicate Assigns(slots: seq<Slot>, k: string) {
    exists j :: 0 <= j < |slots| && slots[j].isSet && slots[j].member.key == k
  }

  lemma AssignsSnoc(slots: seq<Slot>, k: string)
    requires slots != []
    ensures var n := |slots| - 1;
            Assigns(slots, k) <==> Assigns(slots[..n], k) || (slots[n].isSet && slots[n].member.key == k)
  {
    var n := |slots| - 1;
    if Assigns(slots[..n], k) {
      var j :| 0 <= j < n && slots[..n][j].isSet && slots[..n][j].member.key == k;
      assert slots[j] == slots[..n][j];
    }
    if Assigns(slots, k) {
      var j :| 0 <= j < |slots| && slots[j].isSet && slots[j].member.key == k;
      if j < n {
        assert slots[..n][j] == slots[j];
      }
    }
  }

  /** A key is in the record exactly when some assignment that ran carries it. */
  lemma {:induction false} FillKeys(slots: seq<Slot>, k: string)
    ensures k in Keys(Fill(slots)) <==> Assigns(slots, k)
  {
    if slots != [] {
      var n := |slots| - 1;
      FillKeys(slots[..n], k);
      AssignsSnoc(slots, k);
      if slots[n].isSet {
        PutKeys(Fill(slots[..n]), slots[n].member.key, slots[n].member.value);
      }
    }
  }

  /** Assignments never repeat a key in the record. */
  lemma {:induction false} FillDistinct(slots: seq<Slot>)
    ensures NoDup(Keys(Fill(slots)))
  {
    if slots != [] {
      var n := |slots| - 1;
      FillDistinct(slots[..n]);
      if slots[n].isSet {
        PutKeys(Fill(slots[..n]), slots[n].member.key, slots[n].member.value);
      }
    }
  }

  /** With assignments to different keys, a key holds the value of its own assignment, if it ran. */
  lemma {:induction false} FillLookup(slots: seq<Slot>, j: nat)
    requires j < |slots|
    requires forall a, b :: 0 <= a < b < |slots| ==> slots[a].member.key != slots[b].member.key
    ensures Lookup(Fill(slots), slots[j].member.key)
            == if slots[j].isSet then Some(slots[j].member.value) else None
  {
    var n := |slots| - 1;
    var before := Fill(slots[..n]);
    var k := slots[j].member.key;
    if slots[n].isSet {
      PutLookup(before, slots[n].member.key, slots[n].member.value, k);
    }
    if j < n {
      assert slots[..n][j] == slots[j];
      FillLookup(slots[..n], j);
    } else if !slots[n].isSet {
      FillKeys(slots[..n], k);
      assert forall a :: 0 <= a < n ==> slots[..n][a].member.key != k by {
        assert forall a :: 0 <= a < n ==> slots[..n][a] == slots[a];
      }
    }
  }

  /** With assignments to different keys, each one that runs appends its member. */
  lemma {:induction false} FillAppends(slots: seq<Slot>)
    requires slots != []
    requires forall a, b :: 0 <= a < b < |slots| ==> slots[a].member.key != slots[b].member.key
    ensures Fill(slots) == Fill(slots[..|slots| - 1]) + (if slots[|slots| - 1].isSet then [slots[|slots| - 1].member] else [])
  {
    var n := |slots| - 1;
    var k := slots[n].member.key;
    if slots[n].isSet {
      FillKeys(slots[..n], k);
      assert forall a :: 0 <= a < n ==> slots[..n][a].member.key != k by {
        assert forall a :: 0 <= a < n ==> slots[..n][a] == slots[a];
      }
      PutNewKey(Fill(slots[..n]), k, slots[n].member.value);
    }
  }

  /** The record is empty exactly when no assignment runs. */
  lemma {:induction false} FillEmpty(slots: seq<Slot>)
    ensures Fill(slots) == [] <==> forall j :: 0 <= j < |slots| ==> !slots[j].isSet
  {
    if slots != [] {
      var n := |slots| - 1;
      FillEmpty(slots[..n]);
      assert forall j :: 0 <= j < n ==> slots[..n][j] == slots[j];
      if slots[n].isSet {
        PutKeys(Fill(slots[..n]), slots[n].member.key, slots[n].member.value);
      }
    }
  }

  /** The record's nine assignments carry different keys. */
  lemma SlotKeysDistinct(f: MetadataFields)
    ensures forall i, j :: 0 <= i < j < |Slots(f)| ==> Slots(f)[i].member.key != Slots(f)[j].member.key
  {
    SlotsAt(f);
    assert forall i, j :: 0 <= i < j < |KeyOrder| ==> KeyOrder[i] != KeyOrder[j];
  }

  /** Each short key is present exactly when its field is non-empty, and then holds the field verbatim. */
  lemma ShortKeyValues(f: MetadataFields, j: nat)
    requires j < |ShortKeys|
    ensures Lookup(Fill(Slots(f)), ShortKeys[j])
            == if ShortValues(f)[j] != "" then Some(JString(ShortValues(f)[j])) else None
  {
    SlotsAt(f);
    SlotKeysDistinct(f);
    FillLookup(Slots(f), j);
  }

  /** `us` is present whenever there are url rows and holds the rows with a url, in order. */
  lemma UrlsValue(f: MetadataFields)
    ensures Lookup(Fill(Slots(f)), "us")
            == if |f.urls| > 0 then Some(JArray(UrlsJson(KeptUrls(f.urls)))) else None
  {
    SlotsAt(f);
    SlotKeysDistinct(f);
    FillLookup(Slots(f), 7);
  }

  /** `ai` is present when some row is admitted, and then holds the admitted rows' object. */
  lemma ExtrasValue(f: MetadataFields)
    ensures Lookup(Fill(Slots(f)), "ai")
            == if |Extras(f.additionalInfo)| > 0 then Some(JObject(Extras(f.additionalInfo))) else None
  {
    SlotsAt(f);
    SlotKeysDistinct(f);
    FillLookup(Slots(f), 8);
  }

  /** The record never repeats a key. */
  lemma RecordDistinct(f: MetadataFields)
    ensures NoDup(Keys(Record(f)))
  {
    FillDistinct(Slots(f));
  }

  /** `x`'s key comes before `y`'s key in the builder's order. */
  predicate KeysInOrder(x: Member, y: Member) {
    exists a, b :: 0 <= a < b < |KeyOrder| && x.key == KeyOrder[a] && y.key == KeyOrder[b]
  }

  /** The record's keys follow the builder's order. */
  lemma RecordOrder(f: MetadataFields)
    ensures forall i, j :: 0 <= i < j < |Record(f)| ==> KeysInOrder(Record(f)[i], Record(f)[j])
  {
    SlotsAt(f);
    SlotKeysDistinct(f);
    forall i, j | 0 <= i < j < |Record(f)|
      ensures KeysInOrder(Record(f)[i], Record(f)[j])
    {
      var a, b := FillOrderAt(Slots(f), i, j);
      assert Record(f)[i].key == KeyOrder[a] && Record(f)[j].key == KeyOrder[b];
    }
  }

  /** No field is filled in: every short field empty, no url row, no admitted info row. */
  predicate NothingFilled(f: MetadataFields) {
    (forall j :: 0 <= j < |ShortKeys| ==> ShortValues(f)[j] == "") && |f.urls| == 0 && |Extras(f.additionalInfo)| == 0
  }

  /** The record has no member exactly when nothing is filled in. */
  lemma RecordEmptyIffBlank(f: MetadataFields)
    ensures |Record(f)| == 0 <==> NothingFilled(f)
  {
    var slots := Slots(f);
    SlotsAt(f);
    FillEmpty(slots);
    assert (forall j :: 0 <= j < |slots| ==> !slots[j].isSet) <==> NothingFilled(f) by {
      assert !slots[7].isSet <==> |f.urls| == 0;
    }
  }

  /** `x` and `y` are the members of two assignments, `x`'s first. */
  predicate AssignedInOrder(slots: seq<Slot>, x: Member, y: Member) {
    exists a, b :: 0 <= a < b < |slots| && x == slots[a].member && y == slots[b].member
  }

  /** With assignments to different keys, the record's members appear in the order of their assignments. */
  lemma {:induction false} FillOrder(slots: seq<Slot>)
    requires forall a, b :: 0 <= a < b < |slots| ==> slots[a].member.key != slots[b].member.key
    ensures forall i, j :: 0 <= i < j < |Fill(slots)| ==> AssignedInOrder(slots, Fill(slots)[i], Fill(slots)[j])
  {
    if slots != [] {
      var n := |slots| - 1;
      var before := Fill(slots[..n]);
      FillAppends(slots);
      FillOrder(slots[..n]);
      FillSource(slots[..n]);
      forall i, j | 0 <= i < j < |Fill(slots)|
        ensures AssignedInOrder(slots, Fill(slots)[i], Fill(slots)[j])
      {
        if j < |before| {
          assert Fill(slots)[i] == before[i] && Fill(slots)[j] == before[j];
          var a, b :| 0 <= a < b < n && before[i] == slots[..n][a].member && before[j] == slots[..n][b].member;
          assert slots[..n][a] == slots[a] && slots[..n][b] == slots[b];
        } else {
          assert Fill(slots)[i] == before[i];
          var a :| 0 <= a < n && before[i] == slots[..n][a].member;
          assert slots[..n][a] == slots[a];
          assert Fill(slots)[j] == slots[n].member;
        }
      }
    } else {
      assert Fill(slots) == [];
    }
  }

  /** The assignments two members of the record come from, in the same order as the members. */
  lemma FillOrderAt(slots: seq<Slot>, i: nat, j: nat) returns (a: nat, b: nat)
    requires forall a, b :: 0 <= a < b < |slots| ==> slots[a].member.key != slots[b].member.key
    requires i < j < |Fill(slots)|
    ensures a < b < |slots| && Fill(slots)[i] == slots[a].member && Fill(slots)[j] == slots[b].member
  {
    FillOrder(slots);
    a, b :| 0 <= a < b < |slots| && Fill(slots)[i] == slots[a].member && Fill(slots)[j] == slots[b].member;
  }

  /** Every member of the record is the member of one of its assignments. */
  lemma {:induction false} FillSource(slots: seq<Slot>)
    requires forall a, b :: 0 <= a < b < |slots| ==> slots[a].member.key != slots[b].member.key
    ensures forall i :: 0 <= i < |Fill(slots)| ==> exists a :: 0 <= a < |slots| && Fill(slots)[i] == slots[a].member
  {
    if slots != [] {
      var n := |slots| - 1;
      var before := Fill(slots[..n]);
      FillAppends(slots);
      FillSource(slots[..n]);
      forall i | 0 <= i < |Fill(slots)|
        ensures exists a :: 0 <= a < |slots| && Fill(slots)[i] == slots[a].member
      {
        if i < |before| {
          assert Fill(slots)[i] == before[i];
          var a :| 0 <= a < n && before[i] == slots[..n][a].member;
          assert slots[..n][a] == slots[a];
        } else {
          assert Fill(slots)[i] == slots[n].member;
        }
      }
    } else {
      assert Fill(slots) == [];
    }
  }


  /** The value of the last admitted row with key k: the value `ai[k]` ends up holding. */
  function LastValue(rows: seq<InfoRow>, k: string): (r: Option<string>)
    ensures r.Some? ==> exists i :: 0 <= i < |rows| && Admitted(rows[i]) && rows[i] == InfoRow(k, r.value)
                                    && NoLaterRow(rows, i, k)
    ensures r.None? ==> forall i :: 0 <= i < |rows| && Admitted(rows[i]) ==> rows[i].key != k
  {
    if rows == [] then None
    else
      var last := rows[|rows| - 1];
      if Admitted(last) && last.key == k then Some(last.value)
      else
        var init := rows[..|rows| - 1];
        var r := LastValue(init, k);
        assert forall i :: 0 <= i < |rows| - 1 ==> init[i] == rows[i];
        if r.Some? then
          var i :| 0 <= i < |init| && Admitted(init[i]) && init[i] == InfoRow(k, r.value) && NoLaterRow(init, i, k);
          assert NoLaterRow(rows, i, k);
          r
        else r
  }

  /** No admitted row after row i has key k. */
  predicate NoLaterRow(rows: seq<InfoRow>, i: nat, k: string) {
    forall j :: i < j < |rows| && Admitted(rows[j]) ==> rows[j].key != k
  }

  /** Rows missing a key or a value are dropped; for a repeated key the last row wins. */
  lemma {:induction false} ExtrasLookup(rows: seq<InfoRow>, k: string)
    ensures Lookup(Extras(rows), k) == if LastValue(rows, k).Some? then Some(JString(LastValue(rows, k).value)) else None
  {
    if rows != [] {
      var last := rows[|rows| - 1];
      ExtrasLookup(rows[..|rows| - 1], k);
      if Admitted(last) {
        PutLookup(Extras(rows[..|rows| - 1]), last.key, JString(last.value), k);
      }
    }
  }

  /** The `ai` object never holds a key twice. */
  lemma {:induction false} ExtrasDistinct(rows: seq<InfoRow>)
    ensures NoDup(Keys(Extras(rows)))
  {
    if rows != [] {
      var last := rows[|rows| - 1];
      var before := Extras(rows[..|rows| - 1]);
      ExtrasDistinct(rows[..|rows| - 1]);
      if Admitted(last) {
        PutKeys(before, last.key, JString(last.value));
      }
    }
  }

  /** The filter keeps the order of the rows. */
  lemma {:induction false} KeptUrlsAppend(a: seq<MetadataUrl>, b: seq<MetadataUrl>)
    ensures KeptUrls(a + b) == KeptUrls(a) + KeptUrls(b)
  {
    if a != [] {
      assert (a + b)[0] == a[0] && (a + b)[1..] == a[1..] + b;
      assert KeptUrls(a + b) == (if a[0].u != "" then [a[0]] else []) + KeptUrls(a[1..] + b);
      KeptUrlsAppend(a[1..], b);
    } else {
      assert a + b == b;
    }
  }

  /** The appended empty information row never reaches `ai`. */
  lemma ExtrasOfBlankRow(rows: seq<InfoRow>)
    ensures Extras(rows + [InfoRow("", "")]) == Extras(rows)
  {
    assert (rows + [InfoRow("", "")])[..|rows|] == rows;
  }

  // ---------------------------------------------------------------------------
  // Raw JSON text

  /** What `JSON.parse` does with a text: throws (with an Error's message, if the thrown value is one) or yields a value. */
  datatype ParseOutcome = Thrown(message: Option<string>) | Parsed(value: Json)

  /** parseRawMetadata's pair: the object read, and the message shown. */
  datatype RawParse = RawParse(metadata: Option<seq<Member>>, error: Option<string>)

  const NotAnObject: string := "Metadata must be a JSON object"

  /** parseRawMetadata; `parse` stands for `JSON.parse`. */
  function ParseRawMetadata(raw: string, parse: string -> ParseOutcome): (r: RawParse)
    ensures IsBlank(raw) ==> r == RawParse(None, None)
    ensures !IsBlank(raw) && parse(raw).Parsed? && parse(raw).value.JObject?
            ==> r == RawParse(Some(parse(raw).value.members), None)
    ensures !IsBlank(raw) && parse(raw).Parsed? && !parse(raw).value.JObject? ==> r == RawParse(None, Some(NotAnObject))
    ensures !IsBlank(raw) && parse(raw).Thrown?
            ==> r == RawParse(None, Some(if parse(raw).message.Some? then parse(raw).message.value else "Invalid JSON"))
    ensures r.metadata.None? || r.error.None?
  {
    TrimEmptyIffBlank(raw);
    if Trim(raw) == "" then RawParse(None, None)
    else
      match parse(raw)
      case Thrown(message) => RawParse(None, Some(if message.Some? then message.value else "Invalid JSON"))
      case Parsed(value) =>
        if value.JObject? then RawParse(Some(value.members), None) else RawParse(None, Some(NotAnObject))
  }

  datatype MetadataMode = Structured | Raw

  /** getFinalMetadata: the raw text's object in raw mode, the built record otherwise. */
  function FinalMetadata(mode: MetadataMode, f: MetadataFields, raw: string, parse: string -> ParseOutcome)
    : (r: Option<seq<Member>>)
    ensures mode == Raw && ParseRawMetadata(raw, parse).error.Some? ==> r.None?
    ensures mode == Raw && IsBlank(raw) ==> r.None?
    ensures mode == Raw && !IsBlank(raw) && parse(raw).Parsed? && parse(raw).value.JObject?
            ==> r == Some(parse(raw).value.members)
    ensures mode == Structured ==> r == StructuredMetadata(f)
  {
    if mode == Raw then ParseRawMetadata(raw, parse).metadata else StructuredMetadata(f)
  }

  // ---------------------------------------------------------------------------
  // Hex encoding

  /** The UTF-8 bytes of the record's JSON text: they decode back to that text. */
  function MetadataBytes(ms: seq<Member>): (r: seq<byte>)
    ensures Utf8Decode(r) == Some(Stringify(JObject(ms)))
  {
    Utf8RoundTrip(Stringify(JObject(ms)));
    Utf8Encode(Stringify(JObject(ms)))
  }

  /** metadataToHex: `""` for no record, otherwise the upper-cased hex of the JSON text's UTF-8 bytes. */
  function MetadataToHex(meta: Option<seq<Member>>): (r: string)
    ensures r == "" <==> meta.None?
    ensures forall k :: 0 <= k < |r| ==> r[k] in UpperHexDigits
    ensures meta.Some? ==> |r| == 2 * |MetadataBytes(meta.value)|
    ensures meta.Some? ==> HexDecode(r) == Some(MetadataBytes(meta.value))
    ensures meta.Some? ==> Utf8Decode(MetadataBytes(meta.value)) == Some(Stringify(JObject(meta.value)))
  {
    match meta
    case None => ""
    case Some(ms) =>
      var bs := MetadataBytes(ms);
      UpperOfHexLower(bs);
      HexRoundTrip(bs);
      ToUpperAscii(HexLower(bs))
  }
}
