/** The literal of a `ParameterValueNode`, such as "-12.3`_2_LIMIT_MIN_-13_LIMIT_MAX_2.1": a value,
    an optional backtick, an optional esd after `_`, and optional lower and upper limits, which
    may be written in either order but are always printed minimum first. */
module ValueLiterals {
  import opened Wrappers
  import opened Decimals

  datatype ValueLiteral = ValueLiteral(
    value: Decimal,
    esd: Option<Decimal>,
    backtick: bool,
    limMin: Option<Decimal>,
    limMax: Option<Decimal>)

  const MinMarker: string := "_LIMIT_MIN_"
  const MaxMarker: string := "_LIMIT_MAX_"

  /** The text of an optional part: nothing when absent, otherwise the marker and the number. */
  function Part(marker: string, d: Option<Decimal>): string {
    if d.Some? then marker + Str(d.value) else ""
  }

  /** `ParameterValueNode.unparse`: value, backtick, `_esd`, `_LIMIT_MIN_n`, `_LIMIT_MAX_n`, each
      only when present. */
  function ValueText(v: ValueLiteral): string {
    Str(v.value) + (if v.backtick then "`" else "") + Part("_", v.esd)
    + Part(MinMarker, v.limMin) + Part(MaxMarker, v.limMax)
  }

  // ---------------------------------------------------------------- reading a literal back

  predicate IsSpace(c: char) {
    c == ' ' || c == '\t' || c == '\n' || c == '\r'
  }

  /** The parser skips whitespace in front of the literal. */
  function SkipSpace(s: string): (r: string)
    ensures |r| <= |s|
  {
    if s != [] && IsSpace(s[0]) then SkipSpace(s[1..]) else s
  }

  predicate StartsWith(s: string, p: string) {
    |p| <= |s| && s[..|p|] == p
  }

  /** `marker` followed by a number at the front of `s`, and what follows the number. */
  function ScanMarked(s: string, marker: string): (r: Option<(Decimal, string)>)
    ensures r.Some? ==> |r.value.1| < |s|
  {
    if StartsWith(s, marker) then ScanNumber(s[|marker|..]) else None
  }

  /** The limits, each at most once and in either order; scanning stops at the first text that
      is neither a limit not yet seen nor a well-formed limit. */
  function ScanLimits(s: string, lo: Option<Decimal>, hi: Option<Decimal>): (Option<Decimal>, Option<Decimal>)
    decreases |s|
  {
    if lo.None? && ScanMarked(s, MinMarker).Some? then
      var m := ScanMarked(s, MinMarker).value;
      ScanLimits(m.1, Some(m.0), hi)
    else if hi.None? && ScanMarked(s, MaxMarker).Some? then
      var m := ScanMarked(s, MaxMarker).value;
      ScanLimits(m.1, lo, Some(m.0))
    else
      (lo, hi)
  }

  /** The literal at the front of `s`; text after it is ignored, as the parser does not have to
      consume the whole input. */
  function ParseValueLiteral(s: string): Option<ValueLiteral> {
    var value :- ScanNumber(SkipSpace(s));
    Some(ReadParts(value.0, value.1))
  }

  /** The optional parts that follow the value: backtick, then `_esd`, then the limits. */
  function ReadParts(value: Decimal, s: string): ValueLiteral {
    var backtick := s != [] && s[0] == '`';
    var r1 := if backtick then s[1..] else s;
    var esd := ScanMarked(r1, "_");
    var r2 := if esd.Some? then esd.value.1 else r1;
    var limits := ScanLimits(r2, None, None);
    ValueLiteral(value, if esd.Some? then Some(esd.value.0) else None, backtick, limits.0, limits.1)
  }

  // ---------------------------------------------------------------- the printed text reads back

  lemma {:induction false} StartsWithAppend(p: string, t: string)
    ensures StartsWith(p + t, p) && (p + t)[|p|..] == t
  {
    assert (p + t)[..|p|] == p;
  }

  lemma {:induction false} ScanMarkedPart(marker: string, d: Decimal, rest: string)
    requires rest == [] || Boundary(rest[0])
    ensures ScanMarked(marker + Str(d) + rest, marker) == Some((d, rest))
  {
    assert marker + Str(d) + rest == marker + (Str(d) + rest);
    StartsWithAppend(marker, Str(d) + rest);
    ScanStr(d, rest);
  }

  /** A text that differs from `marker` at position `k` does not start with it. */
  lemma {:induction false} NotMarked(s: string, marker: string, k: nat)
    requires k < |marker| && (|s| < |marker| || (k < |s| && s[k] != marker[k]))
    ensures ScanMarked(s, marker).None?
  {
    if |s| >= |marker| {
      assert s[..|marker|][k] != marker[k];
    }
  }

  /** Every part's text starts with `_` (or is empty), so it is a place where a number stops. */
  lemma {:induction false} PartBoundary(marker: string, d: Option<Decimal>, rest: string)
    requires marker != [] && marker[0] == '_'
    requires rest == [] || Boundary(rest[0])
    ensures var t := Part(marker, d) + rest; t == [] || Boundary(t[0])
  {
    if d.Some? {
      assert (Part(marker, d) + rest)[0] == '_';
    } else {
      assert Part(marker, d) + rest == rest;
    }
  }

  lemma {:induction false} ScanLimitsParts(lo: Option<Decimal>, hi: Option<Decimal>)
    ensures ScanLimits(Part(MinMarker, lo) + Part(MaxMarker, hi), None, None) == (lo, hi)
  {
    var tail := Part(MaxMarker, hi);
    if hi.Some? {
      assert tail == MaxMarker + Str(hi.value) + [];
      ScanMarkedPart(MaxMarker, hi.value, []);
      assert ScanLimits([], lo, hi) == (lo, hi);
    } else {
      assert tail == [];
    }
    assert ScanLimits(tail, lo, None) == (lo, hi) by {
      if hi.Some? {
        NotMarked(tail, MinMarker, 8);
        assert Str(hi.value) + [] == Str(hi.value);
      }
    }
    if lo.Some? {
      PartBoundary(MaxMarker, hi, []);
      assert tail + [] == tail;
      ScanMarkedPart(MinMarker, lo.value, tail);
    } else {
      assert Part(MinMarker, lo) + tail == tail;
      if hi.Some? {
        NotMarked(tail, MinMarker, 8);
      }
    }
  }

  /** The text that follows the value: backtick, esd and limits. */
  function Suffix(v: ValueLiteral): string {
    (if v.backtick then "`" else "") + (Part("_", v.esd) + (Part(MinMarker, v.limMin) + Part(MaxMarker, v.limMax)))
  }

  lemma {:induction false} ReadSuffix(v: ValueLiteral)
    ensures ReadParts(v.value, Suffix(v)) == v
  {
    var limits := Part(MinMarker, v.limMin) + Part(MaxMarker, v.limMax);
    var afterEsd := Part("_", v.esd) + limits;
    var s := Suffix(v);
    var r1 := if v.backtick then s[1..] else s;
    assert r1 == afterEsd by {
      if v.backtick {
        assert s == "`" + afterEsd;
      } else {
        assert s == afterEsd;
      }
    }
    if v.esd.Some? {
      assert afterEsd == "_" + Str(v.esd.value) + limits;
      LimitsStart(v.limMin, v.limMax);
      ScanMarkedPart("_", v.esd.value, limits);
    } else {
      assert afterEsd == limits;
      LimitsStart(v.limMin, v.limMax);
      NotMarkedUnderscore(limits);
    }
    ScanLimitsParts(v.limMin, v.limMax);
  }

  /** Reading back what `unparse` printed gives the very same literal: the canonical text of a
      parameter value is a faithful encoding. */
  lemma {:induction false} ParseValueText(v: ValueLiteral)
    ensures ParseValueLiteral(ValueText(v)) == Some(v)
  {
    var suffix := Suffix(v);
    ValueTextSplit(v);
    NoLeadingSpace(v.value, suffix);
    SuffixBoundary(v);
    ScanStr(v.value, suffix);
    ReadSuffix(v);
  }

  /** The printed literal is the value's text followed by the suffix. */
  lemma ValueTextSplit(v: ValueLiteral)
    ensures ValueText(v) == Str(v.value) + Suffix(v)
  {
    var b := if v.backtick then "`" else "";
    Regroup(Str(v.value), b, Part("_", v.esd), Part(MinMarker, v.limMin), Part(MaxMarker, v.limMax));
  }

  lemma Regroup(a: string, b: string, c: string, d: string, e: string)
    ensures a + b + c + d + e == a + (b + (c + (d + e)))
  {
  }

  lemma {:induction false} NoLeadingSpace(d: Decimal, t: string)
    ensures SkipSpace(Str(d) + t) == Str(d) + t
  {
    Decimals.StrStart(d);
    assert (Str(d) + t)[0] == Str(d)[0];
  }

  lemma {:induction false} SuffixBoundary(v: ValueLiteral)
    ensures Suffix(v) == [] || Boundary(Suffix(v)[0])
  {
    var limits := Part(MinMarker, v.limMin) + Part(MaxMarker, v.limMax);
    var afterEsd := Part("_", v.esd) + limits;
    LimitsStart(v.limMin, v.limMax);
    PartBoundary("_", v.esd, limits);
    if v.backtick {
      assert Suffix(v)[0] == '`';
    } else {
      assert Suffix(v) == afterEsd;
    }
  }

  /** The limits text is empty or starts with "_L". */
  lemma {:induction false} LimitsStart(lo: Option<Decimal>, hi: Option<Decimal>)
    ensures var t := Part(MinMarker, lo) + Part(MaxMarker, hi);
      t == [] || (|t| >= 2 && t[0] == '_' && t[1] == 'L')
  {
    if lo.Some? {
      assert (Part(MinMarker, lo) + Part(MaxMarker, hi))[..2] == "_L";
    } else if hi.Some? {
      assert (Part(MinMarker, lo) + Part(MaxMarker, hi))[..2] == "_L";
    }
  }

  /** An esd marker `_` followed by a letter does not start a number. */
  lemma {:induction false} NotMarkedUnderscore(s: string)
    requires s == [] || (|s| >= 2 && s[0] == '_' && s[1] == 'L')
    ensures ScanMarked(s, "_").None?
  {
    if s != [] {
      assert s[1..][0] == 'L';
    }
  }
}
