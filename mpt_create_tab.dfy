/**
 * The issuance-create form: the flag checkboxes and their combined value, the
 * clamped numeric inputs, the url and additional-information list editors,
 * and the request body the submit handler sends to POST /api/mpt/create.
 */
module MptCreateTab {
  import opened Wrappers
  import opened JsSemantics
  import opened Json
  import opened Encoding
  import opened BitFlags
  import opened ListEdits
  import opened MptMetadata
  import opened Envelope
  import MptCreateRoute

  // ---------------------------------------------------------------------------
  // Issuance flags

  /** The six `MPTokenIssuanceCreate` flags offered: can lock, require auth, can escrow, can trade, can transfer, can clawback. */
  const MptFlagValues: seq<nat> := [2, 4, 8, 16, 32, 64]

  /** The form starts with tfMPTCanTransfer selected. */
  const DefaultFlags: seq<nat> := [32]

  /** A selection the checkboxes can produce: offered flags only, none twice. */
  predicate ValidSelection(fs: seq<nat>) {
    (forall i :: 0 <= i < |fs| ==> fs[i] in MptFlagValues) && NoDup(fs)
  }

  /** `selectedFlags.reduce((acc, flag) => acc | flag, 0)`. */
  function CombinedFlags(fs: seq<nat>): (r: nat)
    ensures r == 0 <==> forall i :: 0 <= i < |fs| ==> fs[i] == 0
  {
    if fs == [] then 0
    else
      var init := fs[..|fs| - 1];
      var r := BitOr(CombinedFlags(init), fs[|fs| - 1]);
      BitOrZero(CombinedFlags(init), fs[|fs| - 1]);
      assert forall i :: 0 <= i < |init| ==> init[i] == fs[i];
      r
  }

  /** The plain sum of the selected values, left to right. */
  function Sum(fs: seq<nat>): nat {
    if fs == [] then 0 else Sum(fs[..|fs| - 1]) + fs[|fs| - 1]
  }

  /** Flag j (0-based in the list above) is bit j + 1. */
  lemma MptFlagsArePowers()
    ensures forall j :: 0 <= j < |MptFlagValues| ==> MptFlagValues[j] == Pow2(j + 1)
  {
    assert Pow2(1) == 2;
    assert Pow2(2) == 4;
    assert Pow2(3) == 8;
    assert Pow2(4) == 16;
    assert Pow2(5) == 32;
    assert Pow2(6) == 64;
  }

  /** A bit is set in the combined value exactly when some selected value has it. */
  lemma {:induction false} CombinedFlagsHasBit(fs: seq<nat>, k: nat)
    ensures HasBit(CombinedFlags(fs), k) <==> exists i :: 0 <= i < |fs| && HasBit(fs[i], k)
  {
    if fs == [] {
      ZeroHasNoBit(k);
    } else {
      var n := |fs| - 1;
      var init := fs[..n];
      CombinedFlagsHasBit(init, k);
      BitOrHasBit(CombinedFlags(init), fs[n], k);
      assert forall i :: 0 <= i < n ==> init[i] == fs[i];
      if exists i :: 0 <= i < |fs| && HasBit(fs[i], k) {
        var i :| 0 <= i < |fs| && HasBit(fs[i], k);
        if i < n {
          assert HasBit(init[i], k);
        }
      }
    }
  }

  /** An offered flag has bit j + 1 exactly when it is flag j. */
  lemma OfferedFlagBit(v: nat, j: nat)
    requires v in MptFlagValues && j < |MptFlagValues|
    ensures HasBit(v, j + 1) <==> v == MptFlagValues[j]
  {
    MptFlagsArePowers();
    var m :| 0 <= m < |MptFlagValues| && v == MptFlagValues[m];
    Pow2HasBit(m + 1, j + 1);
    assert v == MptFlagValues[j] <==> m == j;
  }

  /** The checkbox of flag j is ticked exactly when its bit is set in the combined value. */
  lemma FlagSelectedIffBitSet(fs: seq<nat>, j: nat)
    requires forall i :: 0 <= i < |fs| ==> fs[i] in MptFlagValues
    requires j < |MptFlagValues|
    ensures HasBit(CombinedFlags(fs), j + 1) <==> MptFlagValues[j] in fs
  {
    CombinedFlagsHasBit(fs, j + 1);
    forall i | 0 <= i < |fs|
      ensures HasBit(fs[i], j + 1) <==> fs[i] == MptFlagValues[j]
    {
      OfferedFlagBit(fs[i], j);
    }
  }

  /** Two selections listing the same flags, in any order, combine to the same value. */
  lemma CombinedFlagsOfSameMembers(a: seq<nat>, b: seq<nat>)
    requires forall y :: y in a <==> y in b
    ensures CombinedFlags(a) == CombinedFlags(b)
  {
    forall k: nat ensures HasBit(CombinedFlags(a), k) <==> HasBit(CombinedFlags(b), k) {
      CombinedFlagsHasBit(a, k);
      CombinedFlagsHasBit(b, k);
      if exists i :: 0 <= i < |a| && HasBit(a[i], k) {
        var i :| 0 <= i < |a| && HasBit(a[i], k);
        assert a[i] in b;
      }
      if exists i :: 0 <= i < |b| && HasBit(b[i], k) {
        var i :| 0 <= i < |b| && HasBit(b[i], k);
        assert b[i] in a;
      }
    }
    SameBitsEqual(CombinedFlags(a), CombinedFlags(b));
  }

  /** The offered flags are distinct powers of two, so a valid selection's combined value is the sum of its values. */
  lemma {:induction false} CombinedFlagsSum(fs: seq<nat>)
    requires ValidSelection(fs)
    ensures CombinedFlags(fs) == Sum(fs)
  {
    if fs != [] {
      var n := |fs| - 1;
      var init := fs[..n];
      assert forall i :: 0 <= i < n ==> init[i] == fs[i];
      CombinedFlagsSum(init);
      MptFlagsArePowers();
      var m :| 0 <= m < |MptFlagValues| && fs[n] == MptFlagValues[m];
      forall k: nat ensures !(HasBit(CombinedFlags(init), k) && HasBit(fs[n], k)) {
        Pow2HasBit(m + 1, k);
        if HasBit(fs[n], k) && k > 0 {
          FlagSelectedIffBitSet(init, k - 1);
        }
      }
      BitOrDisjoint(CombinedFlags(init), fs[n]);
    }
  }

  /** Whatever the selection, the combined value is even and at most 126. */
  lemma {:induction false} CombinedFlagsBound(fs: seq<nat>)
    requires forall i :: 0 <= i < |fs| ==> fs[i] in MptFlagValues
    ensures CombinedFlags(fs) % 2 == 0 && CombinedFlags(fs) <= 126
  {
    if fs != [] {
      var n := |fs| - 1;
      var init := fs[..n];
      assert forall i :: 0 <= i < n ==> init[i] == fs[i];
      CombinedFlagsBound(init);
      var acc, v := CombinedFlags(init), fs[n];
      OfferedFlagShape(v);
      BitOrBelow(acc, v, 7);
      BitOrEven(acc, v);
      assert CombinedFlags(fs) == BitOr(acc, v);
      EvenBelow(BitOr(acc, v));
    }
  }

  lemma EvenBelow(r: nat)
    requires r % 2 == 0 && r < 128
    ensures r <= 126
  {
  }

  /** Each offered flag is even and below 2^7. */
  lemma OfferedFlagShape(v: nat)
    requires v in MptFlagValues
    ensures v % 2 == 0 && v < Pow2(7) && Pow2(7) == 128
  {
    MptFlagsArePowers();
  }

  /** The combined value is 0 exactly when nothing is selected. */
  lemma {:induction false} CombinedFlagsZero(fs: seq<nat>)
    requires forall i :: 0 <= i < |fs| ==> fs[i] in MptFlagValues
    ensures CombinedFlags(fs) == 0 <==> fs == []
  {
    if fs != [] {
      var n := |fs| - 1;
      BitOrZero(CombinedFlags(fs[..n]), fs[n]);
    }
  }

  /** handleFlagToggle on an offered flag keeps the selection valid and flips only that flag. */
  lemma ToggleFlagKeepsSelection(fs: seq<nat>, v: nat)
    requires ValidSelection(fs) && v in MptFlagValues
    ensures ValidSelection(Toggle(fs, v))
    ensures v in Toggle(fs, v) <==> v !in fs
    ensures forall y :: y != v ==> (y in Toggle(fs, v) <==> y in fs)
  {
    ToggleKeepsNoDup(fs, v);
    var t := Toggle(fs, v);
    assert forall i :: 0 <= i < |t| ==> t[i] in MptFlagValues by {
      forall i | 0 <= i < |t| ensures t[i] in MptFlagValues {
        assert t[i] in t;
      }
    }
  }

  /** Toggling the same flag twice restores the combined value, whatever order the list is left in. */
  lemma ToggleFlagTwiceSameValue(fs: seq<nat>, v: nat)
    ensures CombinedFlags(Toggle(Toggle(fs, v), v)) == CombinedFlags(fs)
  {
    ToggleTwiceSameMembers(fs, v);
    CombinedFlagsOfSameMembers(Toggle(Toggle(fs, v), v), fs);
  }

  // ---------------------------------------------------------------------------
  // Clamped numeric inputs

  const MaxAssetScale: nat := 255
  const MaxTransferFee: nat := 50000

  /** `Math.max(0, Math.min(hi, parseInt(text) || 0))`. */
  function ClampInput(text: string, hi: nat): (r: nat)
    ensures r <= hi
    ensures ParseInt(text).Some? && 0 <= ParseInt(text).value <= hi ==> r == ParseInt(text).value
    ensures ParseInt(text).Some? && ParseInt(text).value > hi ==> r == hi
    ensures ParseInt(text).None? || ParseInt(text).value < 0 ==> r == 0
  {
    var n := match ParseInt(text) case None => 0 case Some(v) => v;
    if n > hi then hi else if n < 0 then 0 else n
  }

  /** The input shows `String(n)`; reading that text back keeps n. */
  lemma ClampOfRendered(n: nat, hi: nat)
    requires n <= hi
    ensures ClampInput(NatToDecimal(n), hi) == n
  {
    ParseIntOfDecimal(n);
  }

  /** Clamping is idempotent through the rendered text. */
  lemma ClampStable(text: string, hi: nat)
    ensures ClampInput(NatToDecimal(ClampInput(text, hi)), hi) == ClampInput(text, hi)
  {
    ClampOfRendered(ClampInput(text, hi), hi);
  }

  // ---------------------------------------------------------------------------
  // The url and additional-information rows

  const BlankUrl: MetadataUrl := MetadataUrl("", "", "")
  const BlankInfo: InfoRow := InfoRow("", "")

  /** addUrl: a blank row is appended; it is filtered out of `us`, so the array sent keeps its contents. */
  function AddUrl(urls: seq<MetadataUrl>): (r: seq<MetadataUrl>)
    ensures |r| == |urls| + 1 && r[..|urls|] == urls && r[|urls|] == BlankUrl
    ensures KeptUrls(r) == KeptUrls(urls)
  {
    KeptUrlsAppend(urls, [BlankUrl]);
    urls + [BlankUrl]
  }

  /** addAdditionalInfo: a blank row is appended; it is dropped from `ai`. */
  function AddAdditionalInfo(rows: seq<InfoRow>): (r: seq<InfoRow>)
    ensures |r| == |rows| + 1 && r[..|rows|] == rows && r[|rows|] == BlankInfo
    ensures Extras(r) == Extras(rows)
  {
    ExtrasOfBlankRow(rows);
    rows + [BlankInfo]
  }

  datatype UrlField = U | C | T

  function WithUrlField(url: MetadataUrl, field: UrlField, value: string): MetadataUrl {
    match field
    case U => url.(u := value)
    case C => url.(c := value)
    case T => url.(t := value)
  }

  datatype InfoField = Key | Value

  function WithInfoField(row: InfoRow, field: InfoField, value: string): InfoRow {
    match field
    case Key => row.(key := value)
    case Value => row.(value := value)
  }

  /**
   * updateUrl: copy the list, assign one field of one row, store the copy.
   * An index with no row makes the assignment throw before anything is
   * stored, so the list stays as it was.
   */
  method UpdateUrl(urls: seq<MetadataUrl>, index: int, field: UrlField, value: string) returns (r: seq<MetadataUrl>)
    ensures |r| == |urls|
    ensures forall i :: 0 <= i < |urls| && i != index ==> r[i] == urls[i]
    ensures 0 <= index < |urls| ==> r[index] == WithUrlField(urls[index], field, value)
  {
    if !(0 <= index < |urls|) {
      return urls;
    }
    var copy := new MetadataUrl[|urls|](i requires 0 <= i < |urls| => urls[i]);
    copy[index] := WithUrlField(copy[index], field, value);
    r := copy[..];
  }

  /** updateAdditionalInfo, the same copy-and-assign on the information rows. */
  method UpdateAdditionalInfo(rows: seq<InfoRow>, index: int, field: InfoField, value: string) returns (r: seq<InfoRow>)
    ensures |r| == |rows|
    ensures forall i :: 0 <= i < |rows| && i != index ==> r[i] == rows[i]
    ensures 0 <= index < |rows| ==> r[index] == WithInfoField(rows[index], field, value)
  {
    if !(0 <= index < |rows|) {
      return rows;
    }
    var copy := new InfoRow[|rows|](i requires 0 <= i < |rows| => rows[i]);
    copy[index] := WithInfoField(copy[index], field, value);
    r := copy[..];
  }

  /** Editing a url row's label or type leaves the filter's choice of rows alone. */
  lemma {:induction false} KeptUrlsIgnoresLabels(urls: seq<MetadataUrl>, index: nat, field: UrlField, value: string)
    requires index < |urls| && field != U
    ensures |KeptUrls(urls[index := WithUrlField(urls[index], field, value)])| == |KeptUrls(urls)|
  {
    if index > 0 {
      var edited := urls[index := WithUrlField(urls[index], field, value)];
      assert edited[1..] == urls[1..][index - 1 := WithUrlField(urls[index], field, value)];
      assert urls[1..][index - 1] == urls[index];
      KeptUrlsIgnoresLabels(urls[1..], index - 1, field, value);
    }
  }

  // ---------------------------------------------------------------------------
  // The form and the request it sends

  datatype CreateForm = CreateForm(
    accountId: string, assetScale: int, transferFee: int, maximumAmount: string, selectedFlags: seq<nat>,
    fields: MetadataFields, mode: MetadataMode, raw: string)

  /** What every reachable form satisfies: clamped numbers and a valid flag selection. */
  predicate FormInvariant(form: CreateForm) {
    0 <= form.assetScale <= MaxAssetScale && 0 <= form.transferFee <= MaxTransferFee
    && ValidSelection(form.selectedFlags)
  }

  /** The form as first shown; `defaultAccountId` stands for the configured default account. */
  function InitialForm(defaultAccountId: string): (form: CreateForm)
    ensures FormInvariant(form)
    ensures CombinedFlags(form.selectedFlags) == 32
    ensures StructuredMetadata(form.fields).None?
    ensures form.mode == Structured
  {
    BlankFieldsHaveNoMetadata();
    DefaultFlagsValue();
    CreateForm(defaultAccountId, 2, 0, "", DefaultFlags, BlankFields, Structured, "")
  }

  /** The metadata fields of a fresh form, all empty. */
  const BlankFields: MetadataFields := MetadataFields("", "", "", "", "", "", "", [], [])

  lemma BlankFieldsHaveNoMetadata()
    ensures StructuredMetadata(BlankFields).None?
  {
    RecordEmptyIffBlank(BlankFields);
    assert ShortValues(BlankFields) == ["", "", "", "", "", "", ""];
  }

  lemma DefaultFlagsValue()
    ensures ValidSelection(DefaultFlags) && CombinedFlags(DefaultFlags) == 32
  {
    assert DefaultFlags[..0] == [];
    assert CombinedFlags(DefaultFlags) == BitOr(CombinedFlags([]), 32);
  }

  /** The form's input events other than the row edits. */
  datatype Event =
    | AssetScaleTyped(text: string)
    | TransferFeeTyped(text: string)
    | FlagToggled(index: nat)
    | TickerTyped(text: string)
    | UrlAdded
    | UrlRemoved(row: int)
    | InfoAdded
    | InfoRemoved(row: int)

  /** The state after one event; flag checkboxes are addressed by their position in the offered list. */
  function Step(form: CreateForm, ev: Event): (next: CreateForm)
    requires ev.FlagToggled? ==> ev.index < |MptFlagValues|
    ensures next.accountId == form.accountId && next.mode == form.mode && next.raw == form.raw
    ensures ev.TickerTyped? ==> next == form.(fields := form.fields.(ticker := ToUpperAscii(ev.text)))
    ensures ev.TickerTyped? ==> |next.fields.ticker| == |ev.text|
    ensures ev.TickerTyped? ==> forall k :: 0 <= k < |next.fields.ticker| ==> !('a' <= next.fields.ticker[k] <= 'z')
  {
    match ev
    case AssetScaleTyped(text) => form.(assetScale := ClampInput(text, MaxAssetScale))
    case TransferFeeTyped(text) => form.(transferFee := ClampInput(text, MaxTransferFee))
    case FlagToggled(index) => form.(selectedFlags := Toggle(form.selectedFlags, MptFlagValues[index]))
    case TickerTyped(text) => form.(fields := form.fields.(ticker := ToUpperAscii(text)))
    case UrlAdded => form.(fields := form.fields.(urls := AddUrl(form.fields.urls)))
    case UrlRemoved(row) => form.(fields := form.fields.(urls := RemoveAt(form.fields.urls, row)))
    case InfoAdded => form.(fields := form.fields.(additionalInfo := AddAdditionalInfo(form.fields.additionalInfo)))
    case InfoRemoved(row) => form.(fields := form.fields.(additionalInfo := RemoveAt(form.fields.additionalInfo, row)))
  }

  /** Every event keeps the numbers clamped and the flag selection valid. */
  lemma StepKeepsInvariant(form: CreateForm, ev: Event)
    requires FormInvariant(form)
    requires ev.FlagToggled? ==> ev.index < |MptFlagValues|
    ensures FormInvariant(Step(form, ev))
  {
    if ev.FlagToggled? {
      ToggleFlagKeepsSelection(form.selectedFlags, MptFlagValues[ev.index]);
    }
  }

  /** Adding an information row never changes the record built. */
  lemma InfoAddedKeepsMetadata(form: CreateForm)
    ensures StructuredMetadata(Step(form, InfoAdded).fields) == StructuredMetadata(form.fields)
  {
    var f := form.fields;
    var g := Step(form, InfoAdded).fields;
    assert ShortSlots(g) == ShortSlots(f);
    assert Slots(g) == Slots(f);
  }

  /** Adding a url row makes `us` present, holding the rows that already had a url. */
  lemma UrlAddedShowsUrls(form: CreateForm)
    ensures Lookup(Fill(Slots(Step(form, UrlAdded).fields)), "us")
            == Some(JArray(UrlsJson(KeptUrls(form.fields.urls))))
  {
    UrlsValue(Step(form, UrlAdded).fields);
  }

  /**
   * The metadata the submit handler sends, as hex text; `parse` stands for `JSON.parse`.
   * It is empty (so nothing is sent) exactly when the chosen mode yields no record:
   * a structured form with nothing filled in, blank raw text or raw text in error.
   */
  function MetadataHex(form: CreateForm, parse: string -> ParseOutcome): (r: string)
    ensures r == "" <==> FinalMetadata(form.mode, form.fields, form.raw, parse).None?
    ensures form.mode == Structured ==> (r == "" <==> NothingFilled(form.fields))
    ensures form.mode == Raw && ParseRawMetadata(form.raw, parse).error.Some? ==> r == ""
    ensures r != "" ==> HexDecode(r) == Some(MetadataBytes(FinalMetadata(form.mode, form.fields, form.raw, parse).value))
  {
    MetadataToHex(FinalMetadata(form.mode, form.fields, form.raw, parse))
  }

  /**
   * The body handleSubmit posts, as the route reads it: every number is sent,
   * the maximum amount and the metadata only when non-empty.
   */
  function RequestOf(form: CreateForm, domainId: string, parse: string -> ParseOutcome)
    : (req: MptCreateRoute.MptCreateRequest)
    ensures req.maximumAmount.Some? <==> form.maximumAmount != ""
    ensures req.metadata.Some? <==> FinalMetadata(form.mode, form.fields, form.raw, parse).Some?
    ensures req.metadata.Some? ==>
              HexDecode(req.metadata.value) == Some(MetadataBytes(FinalMetadata(form.mode, form.fields, form.raw, parse).value))
  {
    MptCreateRoute.MptCreateRequest(
      Some(form.accountId), Some(domainId), Some(form.assetScale), Some(form.transferFee),
      if form.maximumAmount == "" then None else Some(MptCreateRoute.AmountText(form.maximumAmount)),
      Some(CombinedFlags(form.selectedFlags)),
      NonEmpty(MetadataHex(form, parse)))
  }

  /** The submit button: enabled unless a request is in flight, no domain is set, or there is no account. */
  predicate SubmitEnabled(loading: bool, domainId: string, accountCount: nat) {
    !loading && domainId != "" && accountCount > 0
  }

  /**
   * What an enabled submit with an account chosen proposes: the scale always,
   * the fee only when positive, the amount only when typed, the flags only
   * when some are ticked (as the sum of their values), and the metadata hex
   * whenever there is a record, decoding to its JSON text's bytes.
   */
  lemma SubmittedIssuance(form: CreateForm, loading: bool, domainId: string, accountCount: nat,
                          parse: string -> ParseOutcome, env: Environment)
    requires ValidClock(env) && FormInvariant(form)
    requires SubmitEnabled(loading, domainId, accountCount) && form.accountId != ""
    ensures var r := MptCreateRoute.Post(RequestOf(form, domainId, parse), env);
            var meta := FinalMetadata(form.mode, form.fields, form.raw, parse);
            && r.Success?
            && r.value.targetDomainId == domainId
            && r.value.payload.accountId == form.accountId
            && r.value.payload.operation.assetScale == Some(form.assetScale)
            && (r.value.payload.operation.transferFee.Some? <==> form.transferFee > 0)
            && (r.value.payload.operation.transferFee.Some? ==> r.value.payload.operation.transferFee.value == form.transferFee)
            && r.value.payload.operation.maximumAmount == NonEmpty(form.maximumAmount)
            && (r.value.payload.operation.flags.Some? <==> form.selectedFlags != [])
            && (r.value.payload.operation.flags.Some? ==> r.value.payload.operation.flags.value == Sum(form.selectedFlags))
            && (r.value.payload.operation.metadata.Some? <==> meta.Some?)
            && (r.value.payload.operation.metadata.Some? ==>
                  HexDecode(r.value.payload.operation.metadata.value) == Some(MetadataBytes(meta.value)))
  {
    CombinedFlagsZero(form.selectedFlags);
    CombinedFlagsSum(form.selectedFlags);
  }
}
