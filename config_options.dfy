/**
  Configuration options (config_options.py): the converters that turn the
  raw text of a configuration entry into a typed value, and the
  `ConfigOption` record whose `value` field `setValue` rewrites.
 */
module ConfigOptions {
  import opened Wrappers
  import opened Text

  /** The converters an option can use (`ConfigOptionType`). */
  datatype OptionType = Str | Int | List | Command

  /**
    A stored option value. `NoneValue` is Python's `None`. A `Command`
    option keeps the text handed to `shlex.split`, whose token list is not
    part of this model.
   */
  datatype Value =
    | NoneValue
    | StrValue(s: string)
    | IntValue(i: int)
    | ListValue(items: seq<string>)
    | CommandValue(raw: string)

  /** `v` is what the converter of `kind` produces. */
  predicate HoldsKind(kind: OptionType, v: Value) {
    match kind
    case Str => v.StrValue?
    case Int => v.IntValue?
    case List => v.ListValue?
    case Command => v.CommandValue?
  }

  /** `v` is either still `None` or a value of the option's kind. */
  predicate WellTyped(kind: OptionType, v: Value) {
    v.NoneValue? || HoldsKind(kind, v)
  }

  /** `_convert2str`: `str()` of a text never fails and returns the text itself. */
  function Convert2Str(v: string): (r: string)
    ensures r == v
  {
    v
  }

  /**
    `_convert2int`: `int()` of the text, or 0 when `int()` raises. Only
    ASCII digits, an optional sign and surrounding whitespace are accepted.
   */
  function Convert2Int(v: string): (r: int)
    ensures ParseDecimal(Strip(v)).None? ==> r == 0
    ensures ParseDecimal(Strip(v)).Some? ==> r == ParseDecimal(Strip(v)).value
  {
    match ParseDecimal(Strip(v))
    case Some(n) => n
    case None => 0
  }

  /** `int()` reads back `str(n)`. */
  lemma Convert2IntReadsBack(n: int)
    ensures Convert2Int(DecimalText(n)) == n
  {
    DecimalTextTrimmed(n);
    StripTrimmed(DecimalText(n));
    ParseDecimalText(n);
  }

  /** `int()` reads back `str(n)`, whatever whitespace surrounds it. */
  lemma Convert2IntDecimalText(p: string, n: int, q: string)
    requires AllSpace(p) && AllSpace(q)
    ensures Convert2Int(p + DecimalText(n) + q) == n
  {
    DecimalTextTrimmed(n);
    StripPadded(p, DecimalText(n), q);
    ParseDecimalText(n);
  }

  /**
    A text with anything but a digit after its first character (such as
    `10 min`), with any whitespace around it, is not a decimal literal, so
    it converts to 0.
   */
  lemma Convert2IntTrailingText(p: string, t: string, q: string, i: nat)
    requires AllSpace(p) && AllSpace(q) && IsTrimmed(t)
    requires 0 < i < |t| && !IsDigit(t[i])
    ensures Convert2Int(p + t + q) == 0
  {
    StripPadded(p, t, q);
    assert !AllDigits(t);
    assert t[1..][i - 1] == t[i];
    assert !AllDigits(t[1..]);
  }

  /**
    A text that is not a decimal literal, with any whitespace around it,
    converts to 0.
   */
  lemma Convert2IntFallback(p: string, t: string, q: string)
    requires AllSpace(p) && AllSpace(q) && IsTrimmed(t)
    requires !IsDecimalLiteral(t)
    ensures Convert2Int(p + t + q) == 0
  {
    StripPadded(p, t, q);
    ParseDecimalAccepts(t);
  }

  /** A text without any digit converts to 0. */
  lemma Convert2IntRejects(v: string)
    requires forall c :: c in v ==> !IsDigit(c)
    ensures Convert2Int(v) == 0
  {
    var t := Strip(v);
    if |t| >= 1 {
      assert t[0] in t;
      assert !AllDigits(t);
    }
    if |t| >= 2 {
      assert t[1] in t;
      assert t[1..][0] == t[1];
      assert !AllDigits(t[1..]);
    }
  }

  /** Strips every piece, keeping their order. */
  function StripEach(ts: seq<string>): (r: seq<string>)
    ensures |r| == |ts|
    ensures forall i :: 0 <= i < |ts| ==> r[i] == Strip(ts[i])
  {
    if ts == [] then [] else [Strip(ts[0])] + StripEach(ts[1..])
  }

  /**
    `_convert2list`: the text split at every comma, each piece stripped.
    The empty text gives one empty piece.
   */
  function Convert2List(v: string): (r: seq<string>)
    ensures |r| == Count(v, ',') + 1
    ensures forall i :: 0 <= i < |r| ==> IsTrimmed(r[i]) && ',' !in r[i]
    ensures v == "" ==> r == [""]
  {
    var pieces := Split(v, ',');
    var r := StripEach(pieces);
    assert forall i :: 0 <= i < |r| ==> ',' !in pieces[i];
    r
  }

  /** Token `i` is piece `i` of the split at commas, stripped. */
  lemma Convert2ListPieces(v: string)
    ensures forall i :: 0 <= i < |Convert2List(v)| ==> Convert2List(v)[i] == Strip(Split(v, ',')[i])
  {
  }

  /** A text without a comma is one token: the stripped text. */
  lemma Convert2ListNoComma(v: string)
    requires ',' !in v
    ensures Convert2List(v) == [Strip(v)]
  {
    SplitWithoutSeparator(v, ',');
  }

  /** The text before the first comma becomes the first token. */
  lemma Convert2ListAtFirstComma(head: string, tail: string)
    requires ',' !in head
    ensures Convert2List(head + [','] + tail) == [Strip(head)] + Convert2List(tail)
  {
    SplitAtFirstSeparator(head, ',', tail);
    var pieces := [head] + Split(tail, ',');
    assert pieces[1..] == Split(tail, ',');
  }

  lemma NoCommaInSpace(s: string)
    requires AllSpace(s)
    ensures ',' !in s
  {
  }

  /**
    Tokens joined by commas, each comma with its own whitespace before
    (`pads[i].0`) and after (`pads[i].1`) it.
   */
  function PaddedJoin(ts: seq<string>, pads: seq<(string, string)>): string
    requires |ts| >= 1 && |pads| == |ts| - 1
  {
    if |ts| == 1 then ts[0]
    else ts[0] + pads[0].0 + "," + pads[0].1 + PaddedJoin(ts[1..], pads[1..])
  }

  predicate SpacePads(pads: seq<(string, string)>) {
    forall i :: 0 <= i < |pads| ==> AllSpace(pads[i].0) && AllSpace(pads[i].1)
  }

  /** A padded join of two or more tokens, cut at the comma after the first one. */
  lemma PaddedJoinAtFirstComma(lead: string, ts: seq<string>, pads: seq<(string, string)>, trail: string)
    requires |ts| >= 2 && |pads| == |ts| - 1
    ensures lead + PaddedJoin(ts, pads) + trail ==
      (lead + ts[0] + pads[0].0) + [','] + (pads[0].1 + PaddedJoin(ts[1..], pads[1..]) + trail)
  {
    var t0, p, q := ts[0], pads[0].0, pads[0].1;
    var rest := PaddedJoin(ts[1..], pads[1..]);
    var head := ((lead + t0) + p) + ",";
    calc {
      lead + PaddedJoin(ts, pads);
      lead + ((((t0 + p) + ",") + q) + rest);
      { SeqAssociative(lead, ((t0 + p) + ",") + q, rest); }
      (lead + (((t0 + p) + ",") + q)) + rest;
      { SeqAssociative(lead, (t0 + p) + ",", q); }
      ((lead + ((t0 + p) + ",")) + q) + rest;
      { SeqAssociative(lead, t0 + p, ","); }
      (((lead + (t0 + p)) + ",") + q) + rest;
      { SeqAssociative(lead, t0, p); }
      (head + q) + rest;
      { SeqAssociative(head, q, rest); }
      head + (q + rest);
    }
    SeqAssociative(head, q + rest, trail);
  }

  /**
    Round trip: trimmed comma-free tokens joined by commas, with any
    whitespace around each comma and around the whole text, convert back
    to the same tokens.
   */
  lemma {:induction false} Convert2ListPadded(lead: string, ts: seq<string>, pads: seq<(string, string)>, trail: string)
    requires |ts| >= 1 && |pads| == |ts| - 1
    requires AllSpace(lead) && SpacePads(pads) && AllSpace(trail)
    requires forall i :: 0 <= i < |ts| ==> IsTrimmed(ts[i]) && ',' !in ts[i]
    ensures Convert2List(lead + PaddedJoin(ts, pads) + trail) == ts
    decreases |ts|
  {
    NoCommaInSpace(lead);
    NoCommaInSpace(trail);
    if |ts| == 1 {
      assert ',' !in lead + ts[0] + trail;
      Convert2ListNoComma(lead + ts[0] + trail);
      StripPadded(lead, ts[0], trail);
    } else {
      var head := lead + ts[0] + pads[0].0;
      var tail := pads[0].1 + PaddedJoin(ts[1..], pads[1..]) + trail;
      NoCommaInSpace(pads[0].0);
      assert ',' !in head;
      assert SpacePads(pads[1..]) by {
        forall i | 0 <= i < |pads[1..]|
          ensures AllSpace(pads[1..][i].0) && AllSpace(pads[1..][i].1)
        {
          assert pads[1..][i] == pads[i + 1];
        }
      }
      calc {
        Convert2List(lead + PaddedJoin(ts, pads) + trail);
        { PaddedJoinAtFirstComma(lead, ts, pads, trail); }
        Convert2List(head + [','] + tail);
        { Convert2ListAtFirstComma(head, tail); }
        [Strip(head)] + Convert2List(tail);
        { StripPadded(lead, ts[0], pads[0].0); Convert2ListPadded(pads[0].1, ts[1..], pads[1..], trail); }
        [ts[0]] + ts[1..];
        ts;
      }
    }
  }

  /** A single trimmed comma-free token converts to itself. */
  lemma Convert2ListOne(t: string)
    requires IsTrimmed(t) && ',' !in t
    ensures Convert2List(t) == [t]
  {
    Convert2ListNoComma(t);
    StripTrimmed(t);
  }

  /** One more token in front of a joined list that converts back. */
  lemma Convert2ListJoinStep(ts: seq<string>)
    requires |ts| >= 2
    requires IsTrimmed(ts[0]) && ',' !in ts[0]
    requires Convert2List(Join(ts[1..], ",")) == ts[1..]
    ensures Convert2List(Join(ts, ",")) == ts
  {
    var rest := Join(ts[1..], ",");
    calc {
      Convert2List(Join(ts, ","));
      { assert Join(ts, ",") == ts[0] + [','] + rest; }
      Convert2List(ts[0] + [','] + rest);
      { Convert2ListAtFirstComma(ts[0], rest); }
      [Strip(ts[0])] + ts[1..];
      { Convert2ListOne(ts[0]); }
      [ts[0]] + ts[1..];
      { HeadTail(ts); }
      ts;
    }
  }

  /** Round trip for the plain `','.join` of trimmed comma-free tokens. */
  lemma {:induction false} Convert2ListJoin(ts: seq<string>)
    requires |ts| >= 1
    requires forall i :: 0 <= i < |ts| ==> IsTrimmed(ts[i]) && ',' !in ts[i]
    ensures Convert2List(Join(ts, ",")) == ts
    decreases |ts|
  {
    if |ts| == 1 {
      Convert2ListOne(ts[0]);
      HeadTail(ts);
    } else {
      Convert2ListJoin(ts[1..]);
      Convert2ListJoinStep(ts);
    }
  }

  /** The converter `kind` selects, applied to the raw text. */
  function Convert(kind: OptionType, raw: string): (r: Value)
    ensures HoldsKind(kind, r)
  {
    match kind
    case Str => StrValue(Convert2Str(raw))
    case Int => IntValue(Convert2Int(raw))
    case List => ListValue(Convert2List(raw))
    case Command => CommandValue(raw)
  }

  /** Python's `repr()` of a string as written inside a printed list. */
  function Quoted(s: string): string {
    "'" + s + "'"
  }

  /** Python's `str()` of a stored value. */
  function ValueText(v: Value): (r: string)
    ensures v.NoneValue? ==> r == "None"
    ensures v.StrValue? ==> r == v.s
    ensures v.IntValue? ==> r == DecimalText(v.i) && Convert2Int(r) == v.i
    ensures v.ListValue? ==> |r| >= 2 && r[0] == '[' && r[|r| - 1] == ']'
  {
    match v
    case NoneValue => "None"
    case StrValue(s) => s
    case IntValue(i) => Convert2IntReadsBack(i); DecimalText(i)
    case ListValue(items) => "[" + Join(seq(|items|, i requires 0 <= i < |items| => Quoted(items[i])), ", ") + "]"
    case CommandValue(raw) => raw
  }

  class ConfigOption {
    /** Assigned once by the constructor and never written again. */
    const configKey: string
    const mandatory: bool
    const kind: OptionType
    var value: Value

    ghost predicate Valid()
      reads this
    {
      WellTyped(kind, value)
    }

    /**
      `__init__`: `setValue` converts the default, but it returns nothing
      and the constructor stores that result, so a new option holds `None`.
     */
    constructor (key: string, defaultText: string, kind: OptionType, mandatory: bool)
      ensures configKey == key && this.kind == kind && this.mandatory == mandatory
      ensures value == NoneValue
      ensures Valid()
    {
      configKey := key;
      this.kind := kind;
      this.mandatory := mandatory;
      new;
      SetValue(defaultText);
      value := NoneValue;
    }

    /** `setValue`: the converter of the option's kind, applied to the raw text. */
    method SetValue(raw: string)
      modifies this
      ensures GetValue() == Convert(kind, raw)
      ensures Valid()
    {
      value := Convert(kind, raw);
    }

    function GetValue(): (v: Value)
      reads this
      ensures Valid() ==> WellTyped(kind, v)
    {
      value
    }

    /** `__str__`: the key, `*` for a mandatory option, ` => `, the value. */
    function ToString(): (r: string)
      reads this
      ensures |r| > |configKey| && r[..|configKey|] == configKey
      ensures r[|configKey|] == '*' <==> mandatory
      ensures r[|configKey| + (if mandatory then 1 else 0)..] == " => " + ValueText(value)
    {
      configKey + (if mandatory then "*" else "") + " => " + ValueText(value)
    }

    /**
      What `repr()` gives for the option: `__repr__` returns the stored
      value, and `repr()` raises (None here) unless that value is a string.
     */
    function ReprText(): (r: Option<string>)
      reads this
      ensures r.Some? <==> value.StrValue?
      ensures value.StrValue? ==> r.value == value.s
    {
      if value.StrValue? then Some(value.s) else None
    }
  }
}
