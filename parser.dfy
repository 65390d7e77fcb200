/** `QuantitySurveyorAI._parse_response`: find the JSON candidate, hand it to
    `json.loads`, recompute every bar-bending-schedule weight in place, and
    collapse every failure to one fixed placeholder record. */
module ResponseParser {
  import opened Wrappers
  import opened JsonValue
  import opened Rounding
  import opened Extraction

  /** Weight in kg of bars of diameter `dia` mm and combined length
      `totalLength` m: dia²/162 kg per metre, plus 2% wastage, to the
      hundredth. */
  function SteelWeight(dia: real, totalLength: real): real {
    Round2(dia * dia / 162.0 * totalLength * 1.02)
  }

  /** The weight the loop body computes for one schedule entry; `None` when
      `dia_mm` or `total_length` is missing, when the entry is not a dict, or
      when either value is not a number. */
  function ItemWeight(item: Json): (r: Option<real>)
    ensures r.Some? ==> item.Object?
  {
    match (NumberField(item, "dia_mm"), NumberField(item, "total_length"))
    case (Some(dia), Some(length)) => Some(SteelWeight(dia, length))
    case _ => None
  }

  /** An entry whose `weight_kg` is the formula applied to its own `dia_mm`
      and `total_length`. */
  predicate WeightConsistent(item: Json) {
    ItemWeight(item).Some? && Get(item, "weight_kg") == Some(Number(ItemWeight(item).value))
  }

  /** One pass of the loop body: `item['weight_kg'] = round(weight, 2)`. */
  function NormalizeItem(item: Json): (r: Option<Json>)
    ensures r.Some? <==> ItemWeight(item).Some?
  {
    match ItemWeight(item)
    case Some(w) => Some(Object(Put(item.members, "weight_kg", Number(w))))
    case None => None
  }

  /** One pass of the loop body raises exactly when the entry is not a dict,
      lacks `dia_mm` or `total_length`, or holds something other than a number
      or a boolean under either of them. */
  lemma NormalizeItemSucceeds(item: Json)
    ensures NormalizeItem(item).Some? <==>
      && item.Object?
      && "dia_mm" in Keys(item.members) && IsNumeric(Lookup(item.members, "dia_mm"))
      && "total_length" in Keys(item.members) && IsNumeric(Lookup(item.members, "total_length"))
  {
    NumberFieldIff(item, "dia_mm");
    NumberFieldIff(item, "total_length");
  }

  /** What one pass of the loop body changes: `weight_kg` takes the computed
      weight (appended as a new key if the entry had none), and every other
      key keeps its value. */
  lemma NormalizeItemEffect(item: Json)
    requires NormalizeItem(item).Some?
    ensures NormalizeItem(item).value.Object?
    ensures Get(NormalizeItem(item).value, "weight_kg") == Some(Number(ItemWeight(item).value))
    ensures forall k :: k != "weight_kg" ==> Get(NormalizeItem(item).value, k) == Get(item, k)
    ensures Keys(NormalizeItem(item).value.members) ==
      (if "weight_kg" in Keys(item.members) then Keys(item.members) else Keys(item.members) + ["weight_kg"])
  {
    PutKeys(item.members, "weight_kg", Number(ItemWeight(item).value));
  }

  /** The loop over the whole schedule, as a value: every entry normalised in
      order, or `None` when one of them raises. */
  function NormalizeItems(xs: seq<Json>): (r: Option<seq<Json>>)
    ensures r.Some? <==> forall i :: 0 <= i < |xs| ==> NormalizeItem(xs[i]).Some?
    ensures r.Some? ==> |r.value| == |xs|
    ensures r.Some? ==> forall i :: 0 <= i < |xs| ==> NormalizeItem(xs[i]) == Some(r.value[i])
  {
    if xs == [] then Some([])
    else
      match (NormalizeItem(xs[0]), NormalizeItems(xs[1..]))
      case (Some(y), Some(ys)) =>
        assert forall i :: 1 <= i < |xs| ==> xs[i] == xs[1..][i - 1];
        Some([y] + ys)
      case (None, _) => None
      case (_, None) =>
        assert forall i :: 1 <= i < |xs| ==> xs[i] == xs[1..][i - 1];
        None
  }

  /** The normalisation loop, run in place over the schedule as Python runs it
      over the list of dicts. It stops at the first entry that raises, leaving
      the entries before it updated and the rest as they were. */
  method NormalizeInPlace(a: array<Json>) returns (ok: bool)
    modifies a
    ensures ok <==> NormalizeItems(old(a[..])).Some?
    ensures ok ==> a[..] == NormalizeItems(old(a[..])).value
    ensures !ok ==> exists k :: (0 <= k < a.Length && NormalizeItem(old(a[k])).None?
      && (forall j :: 0 <= j < k ==> NormalizeItem(old(a[j])) == Some(a[j]))
      && (forall j :: k <= j < a.Length ==> a[j] == old(a[j])))
  {
    var i := 0;
    while i < a.Length
      invariant 0 <= i <= a.Length
      invariant forall j :: 0 <= j < i ==> NormalizeItem(old(a[j])) == Some(a[j])
      invariant forall j :: i <= j < a.Length ==> a[j] == old(a[j])
    {
      var weight := ItemWeight(a[i]);
      if weight.None? {
        assert NormalizeItem(old(a[i])).None?;
        return false;
      }
      a[i] := Object(Put(a[i].members, "weight_kg", Number(weight.value)));
      i := i + 1;
    }
    ok := true;
    assert forall j :: 0 <= j < a.Length ==> NormalizeItem(old(a[..])[j]) == Some(a[..][j]);
  }

  /** The normalisation step on the parsed value: `None` when it raises. A dict
      without `bbs` comes back as it was; so does one whose `bbs` is an empty
      string or dict, which the loop iterates over without doing anything. */
  function Normalize(data: Json): (r: Option<Json>)
    ensures r.Some? ==> data.Object? && r.value.Object?
    ensures r.Some? ==> Keys(r.value.members) == Keys(data.members)
    ensures r.Some? ==> forall k :: k != "bbs" ==> Get(r.value, k) == Get(data, k)
    ensures data.Object? && Get(data, "bbs").None? ==> r == Some(data)
    ensures r.None? <==>
      || !data.Object?
      || (Get(data, "bbs").Some? &&
          (Iterate(Get(data, "bbs").value).None? || NormalizeItems(Iterate(Get(data, "bbs").value).value).None?))
  {
    if !data.Object? then None                  // data.get fails on a non-dict
    else
      match Get(data, "bbs")
      case None => Some(data)
      case Some(bbs) =>
        match Iterate(bbs)
        case None => None
        case Some(items) =>
          match NormalizeItems(items)
          case None => None
          case Some(items') =>
            if bbs.Array? then
              LookupKeys(data.members, "bbs");
              PutKeys(data.members, "bbs", Array(items'));
              Some(Object(Put(data.members, "bbs", Array(items'))))
            else Some(data)
  }

  /** The record returned whenever anything inside the `try` raises. */
  const Placeholder: Json := Object([
    ("scale", Str("Unknown")),
    ("boq", Array([])),
    ("bbs", Array([])),
    ("notes", Array([Str("Parsing failed - see raw response above")])),
    ("assumptions", Array([]))
  ])

  /** `_parse_response` as a value; `parse` stands for `json.loads`, `None`
      meaning that it raised. */
  function ParseOutcome(text: string, parse: string -> Option<Json>): (r: Json)
    ensures r.Object?
  {
    match Extract(text)
    case None => Placeholder
    case Some(sp) =>
      match parse(Candidate(text, sp))
      case None => Placeholder
      case Some(data) =>
        match Normalize(data)
        case None => Placeholder
        case Some(result) => result
  }

  /** `_parse_response`, with its loop over the schedule run in place. */
  method ParseResponse(text: string, parse: string -> Option<Json>) returns (data: Json)
    ensures data == ParseOutcome(text, parse)
  {
    var span := Extract(text);
    if span.None? {
      return Placeholder;                         // "No JSON found in response"
    }
    var parsed := parse(Candidate(text, span.value));
    if parsed.None? {
      return Placeholder;                         // json.loads raised
    }
    data := parsed.value;
    ghost var expected := Normalize(data);
    assert ParseOutcome(text, parse) == if expected.None? then Placeholder else expected.value;
    if !data.Object? {
      return Placeholder;                         // data.get raised
    }
    var bbs := Get(data, "bbs");
    if bbs.None? {
      return;
    }
    var items := Iterate(bbs.value);
    if items.None? {
      return Placeholder;                         // bbs is not iterable
    }
    var xs := items.value;
    var a := new Json[|xs|](i requires 0 <= i < |xs| => xs[i]);
    assert a[..] == xs;
    var ok := NormalizeInPlace(a);
    NormalizeSteps(data, bbs.value, xs);
    if !ok {
      return Placeholder;                         // an entry raised
    }
    if bbs.value.Array? {
      data := Object(Put(data.members, "bbs", Array(a[..])));
    }
  }

  /** How `Normalize` proceeds on a dict whose `bbs` is iterable. */
  lemma NormalizeSteps(data: Json, bbs: Json, xs: seq<Json>)
    requires data.Object? && Get(data, "bbs") == Some(bbs) && Iterate(bbs) == Some(xs)
    ensures NormalizeItems(xs).None? ==> Normalize(data).None?
    ensures NormalizeItems(xs).Some? && bbs.Array? ==>
      Normalize(data) == Some(Object(Put(data.members, "bbs", Array(NormalizeItems(xs).value))))
    ensures NormalizeItems(xs).Some? && !bbs.Array? ==> Normalize(data) == Some(data)
  {
  }

  // ---------------------------------------------------------------------
  // Properties of the normalisation step

  /** A normalised entry is consistent. */
  lemma NormalizeItemConsistent(x: Json)
    requires NormalizeItem(x).Some?
    ensures WeightConsistent(NormalizeItem(x).value)
  {
    var y := NormalizeItem(x).value;
    NormalizeItemEffect(x);
    assert Get(y, "dia_mm") == Get(x, "dia_mm");
    assert Get(y, "total_length") == Get(x, "total_length");
  }

  /** A consistent entry is left exactly as it is. */
  lemma NormalizeItemFixpoint(y: Json)
    requires WeightConsistent(y)
    ensures NormalizeItem(y) == Some(y)
  {
    PutSame(y.members, "weight_kg", Number(ItemWeight(y).value));
  }

  lemma {:induction false} NormalizeItemsFixpoint(ys: seq<Json>)
    requires forall i :: 0 <= i < |ys| ==> WeightConsistent(ys[i])
    ensures NormalizeItems(ys) == Some(ys)
  {
    forall i | 0 <= i < |ys| {
      NormalizeItemFixpoint(ys[i]);
    }
    var r := NormalizeItems(ys);
    assert |r.value| == |ys|;
    assert forall i :: 0 <= i < |ys| ==> r.value[i] == ys[i];
    assert r.value == ys;
  }

  /** On success the schedule keeps its length and order, every entry keeps
      every key but `weight_kg` as it was, and every entry's `weight_kg` is
      the formula applied to its `dia_mm` and `total_length`. */
  lemma NormalizeSchedule(data: Json)
    requires Normalize(data).Some?
    requires Get(data, "bbs").Some? && Get(data, "bbs").value.Array?
    ensures Get(Normalize(data).value, "bbs").Some?
    ensures Get(Normalize(data).value, "bbs").value.Array?
    ensures |Get(Normalize(data).value, "bbs").value.items| == |Get(data, "bbs").value.items|
    ensures forall i, k :: 0 <= i < |Get(data, "bbs").value.items| && k != "weight_kg" ==>
      Get(Get(Normalize(data).value, "bbs").value.items[i], k) == Get(Get(data, "bbs").value.items[i], k)
    ensures forall i :: 0 <= i < |Get(data, "bbs").value.items| ==>
      WeightConsistent(Get(Normalize(data).value, "bbs").value.items[i])
  {
    var xs := Get(data, "bbs").value.items;
    var ys := NormalizeItems(xs).value;
    assert Get(Normalize(data).value, "bbs") == Some(Array(ys));
    forall i | 0 <= i < |xs| ensures WeightConsistent(ys[i]) {
      NormalizeItemConsistent(xs[i]);
    }
  }

  /** Normalising a normalised record changes nothing. */
  lemma NormalizeIdempotent(data: Json)
    requires Normalize(data).Some?
    ensures Normalize(Normalize(data).value) == Normalize(data)
  {
    var d' := Normalize(data).value;
    var bbs := Get(data, "bbs");
    if bbs.Some? {
      var items := Iterate(bbs.value).value;
      if bbs.value.Array? {
        NormalizeSchedule(data);
        var ys := Get(d', "bbs").value.items;
        NormalizeItemsFixpoint(ys);
        PutSame(d'.members, "bbs", Array(ys));
      }
    }
  }

  /** A schedule entry lacking `dia_mm` or `total_length` makes the whole
      normalisation raise. */
  lemma MissingFieldRaises(data: Json, i: nat)
    requires data.Object? && Get(data, "bbs").Some?
    requires Iterate(Get(data, "bbs").value).Some?
    requires i < |Iterate(Get(data, "bbs").value).value|
    requires Get(Iterate(Get(data, "bbs").value).value[i], "dia_mm").None?
          || Get(Iterate(Get(data, "bbs").value).value[i], "total_length").None?
    ensures Normalize(data).None?
  {
    assert NormalizeItem(Iterate(Get(data, "bbs").value).value[i]).None?;
  }

  // ---------------------------------------------------------------------
  // Properties of the whole parse

  /** The placeholder comes back when no candidate is found, when
      `json.loads` rejects the candidate, or when normalisation raises; any
      other result is the parsed candidate after normalisation. */
  lemma PlaceholderCases(text: string, parse: string -> Option<Json>)
    ensures Extract(text).None? ==> ParseOutcome(text, parse) == Placeholder
    ensures Extract(text).Some? && parse(Candidate(text, Extract(text).value)).None? ==>
      ParseOutcome(text, parse) == Placeholder
    ensures Extract(text).Some? && parse(Candidate(text, Extract(text).value)).Some? ==>
      var data := parse(Candidate(text, Extract(text).value)).value;
      ParseOutcome(text, parse) == (if Normalize(data).None? then Placeholder else Normalize(data).value)
  {
  }

  /** A parsed reply whose schedule has an entry lacking `dia_mm` or
      `total_length` gives the placeholder, however good the other entries
      are. */
  lemma MissingFieldGivesPlaceholder(text: string, parse: string -> Option<Json>, i: nat)
    requires Extract(text).Some?
    requires parse(Candidate(text, Extract(text).value)).Some?
    requires var data := parse(Candidate(text, Extract(text).value)).value;
      && data.Object? && Get(data, "bbs").Some? && Get(data, "bbs").value.Array?
      && i < |Get(data, "bbs").value.items|
      && (Get(Get(data, "bbs").value.items[i], "dia_mm").None?
        || Get(Get(data, "bbs").value.items[i], "total_length").None?)
    ensures ParseOutcome(text, parse) == Placeholder
  {
    MissingFieldRaises(parse(Candidate(text, Extract(text).value)).value, i);
  }

  /** A reply without any `{` gives the placeholder: its scale is "Unknown",
      its lists are empty and it carries one note. */
  lemma NoBraceGivesPlaceholder(text: string, parse: string -> Option<Json>)
    requires forall j :: 0 <= j < |text| ==> text[j] != '{'
    ensures ParseOutcome(text, parse) == Placeholder
  {
    NoCandidateIff(text);
    forall k: nat ensures !HasFenceMatch(text, k) {
      assert !OpensAt(text, k);
    }
  }

  /** A fenced candidate that `json.loads` rejects gives the placeholder:
      the bare-brace span is never tried in its place. */
  lemma MalformedFenceGivesPlaceholder(text: string, parse: string -> Option<Json>)
    requires Fenced(text).Some? && parse(Candidate(text, Fenced(text).value)).None?
    ensures ParseOutcome(text, parse) == Placeholder
  {
  }

  /** On success every entry of the returned schedule carries the recomputed
      weight, and normalising the returned record once more changes
      nothing. */
  lemma ParsedWeightsConsistent(text: string, parse: string -> Option<Json>)
    requires Extract(text).Some?
    requires parse(Candidate(text, Extract(text).value)).Some?
    requires Normalize(parse(Candidate(text, Extract(text).value)).value).Some?
    ensures var r := ParseOutcome(text, parse);
      Get(r, "bbs").Some? && Get(r, "bbs").value.Array? ==>
        forall i :: 0 <= i < |Get(r, "bbs").value.items| ==> WeightConsistent(Get(r, "bbs").value.items[i])
    ensures Normalize(ParseOutcome(text, parse)) == Some(ParseOutcome(text, parse))
  {
    var data := parse(Candidate(text, Extract(text).value)).value;
    NormalizeIdempotent(data);
    var bbs := Get(data, "bbs");
    if bbs.Some? && bbs.value.Array? {
      NormalizeSchedule(data);
    } else if bbs.Some? {
      assert Normalize(data) == Some(data);
    }
  }

  /** The placeholder itself passes normalisation unchanged. */
  lemma PlaceholderNormalized()
    ensures Normalize(Placeholder) == Some(Placeholder)
    ensures Get(Placeholder, "scale") == Some(Str("Unknown"))
  {
    var ms := Placeholder.members;
    assert ms[0].0 == "scale";
    assert ms[0].0 != "bbs" by { assert |ms[0].0| != |"bbs"|; }
    assert ms[1..][0].0 != "bbs" by { assert ms[1..][0].0[1] != "bbs"[1]; }
    assert ms[1..][1..][0].0 == "bbs";
    assert Lookup(ms, "bbs") == Some(Array([]));
    PutSame(ms, "bbs", Array([]));
  }

  /** The weight of the schedule entry of the prompt's example, 8 bars of
      12 mm with a combined 17.6 m: 0.888.. kg/m × 17.6 m × 1.02 = 15.957.. kg. */
  lemma ExampleWeight()
    ensures SteelWeight(12.0, 17.6) == 15.96
  {
    var y := 12.0 * 12.0 / 162.0 * 17.6 * 1.02 * 100.0;
    assert y == 14361.6 / 9.0;
    assert 1595.0 <= y < 1596.0;
    assert y.Floor == 1595;
  }
}
