/** What the serialized parameter dictionary promises: exactly the keys of what is present. */
module SerializeProperties {
  import opened Wrappers
  import opened Json
  import opened AstNodes
  import opened AstSerialize

  /** The position of an attribute in the fixed attribute order. */
  function KeyIndex(k: ParamKey): (i: nat)
    ensures i < |ParamKeys| && ParamKeys[i] == k
  {
    match k
    case ToBeFixed => 0
    case ToBeRefined => 1
    case Name => 2
    case Value => 3
    case Min => 4
    case Max => 5
    case Del => 6
    case Update => 7
    case StopWhen => 8
    case ValOnContinue => 9
  }

  /** The flag and chain entries use only `!`, `@` and `>`. */
  lemma HeadEntriesKeys(p: Param)
    ensures forall key :: key in HeadEntries(p) ==> key == "!" || key == "@" || key == ">"
    ensures ("!" in HeadEntries(p) <==> IsSet(p.fixed)) && ("@" in HeadEntries(p) <==> IsSet(p.refined))
    ensures ">" in HeadEntries(p) <==> p.next.Some?
    ensures p.next.Some? ==> HeadEntries(p)[">"] == ParamJson(p.next.value)
    ensures IsSet(p.fixed) ==> HeadEntries(p)["!"] == JBool(true)
    ensures IsSet(p.refined) ==> HeadEntries(p)["@"] == JBool(true)
  {
  }

  /** After the first `i` attributes, an attribute among them that holds a node has its short key
      mapped to that node's serialization; any other short key is as the flag and chain entries
      left it. */
  lemma KeyEntriesLookup(p: Param, i: nat, k: ParamKey)
    requires i <= |ParamKeys|
    ensures KeyIndex(k) < i && SlotJson(p, k).Some? ==>
      ShortKey(k) in KeyEntries(p, i) && KeyEntries(p, i)[ShortKey(k)] == SlotJson(p, k).value
    ensures !(KeyIndex(k) < i && SlotJson(p, k).Some?) ==>
      (ShortKey(k) in KeyEntries(p, i) <==> ShortKey(k) in HeadEntries(p))
      && (ShortKey(k) in HeadEntries(p) ==> KeyEntries(p, i)[ShortKey(k)] == HeadEntries(p)[ShortKey(k)])
  {
    if KeyIndex(k) < i && SlotJson(p, k).Some? {
      KeyEntriesHas(p, i, k);
    } else {
      KeyEntriesMisses(p, i, k);
    }
  }

  lemma {:induction false} KeyEntriesHas(p: Param, i: nat, k: ParamKey)
    requires i <= |ParamKeys| && KeyIndex(k) < i && SlotJson(p, k).Some?
    ensures ShortKey(k) in KeyEntries(p, i) && KeyEntries(p, i)[ShortKey(k)] == SlotJson(p, k).value
  {
    var last := ParamKeys[i - 1];
    var d, v := KeyEntries(p, i - 1), SlotJson(p, last);
    assert KeyEntries(p, i) == if v.Some? then d[ShortKey(last) := v.value] else d;
    if last != k {
      ParamKeysDistinct(KeyIndex(k), i - 1);
      KeyEntriesHas(p, i - 1, k);
      if ShortKey(last) == ShortKey(k) {
        ShortKeyInjective(last, k);
      }
    }
  }

  lemma {:induction false} KeyEntriesMisses(p: Param, i: nat, k: ParamKey)
    requires i <= |ParamKeys| && !(KeyIndex(k) < i && SlotJson(p, k).Some?)
    ensures ShortKey(k) in KeyEntries(p, i) <==> ShortKey(k) in HeadEntries(p)
    ensures ShortKey(k) in HeadEntries(p) ==> KeyEntries(p, i)[ShortKey(k)] == HeadEntries(p)[ShortKey(k)]
  {
    if i > 0 {
      var last := ParamKeys[i - 1];
      var d, v := KeyEntries(p, i - 1), SlotJson(p, last);
      assert KeyEntries(p, i) == if v.Some? then d[ShortKey(last) := v.value] else d;
      KeyEntriesMisses(p, i - 1, k);
      if last != k && ShortKey(last) == ShortKey(k) {
        ShortKeyInjective(last, k);
      }
    }
  }

  /** The keys written after the first `i` attributes: the flag and chain keys and short keys. */
  lemma {:induction false} KeyEntriesKeys(p: Param, i: nat)
    requires i <= |ParamKeys|
    ensures forall key :: key in KeyEntries(p, i) ==>
      key in HeadEntries(p) || exists j :: 0 <= j < i && key == ShortKey(ParamKeys[j])
    ensures ">" in KeyEntries(p, i) <==> ">" in HeadEntries(p)
    ensures ">" in HeadEntries(p) ==> KeyEntries(p, i)[">"] == HeadEntries(p)[">"]
  {
    if i > 0 {
      KeyEntriesKeys(p, i - 1);
      var last := ParamKeys[i - 1];
      var d, v := KeyEntries(p, i - 1), SlotJson(p, last);
      assert KeyEntries(p, i) == if v.Some? then d[ShortKey(last) := v.value] else d;
      forall key | key in KeyEntries(p, i)
        ensures key in HeadEntries(p) || exists j :: 0 <= j < i && key == ShortKey(ParamKeys[j])
      {
        if key !in d {
          assert key == ShortKey(last);
        }
      }
      assert ShortKey(last) != ">";
    }
  }

  /** `!` and `@` are written exactly when the flag is set: `true` for a plain flag, the node's
      serialization for a node kept in the flag's attribute. */
  lemma FlagKeys(p: Param, k: ParamKey)
    requires IsFlagKey(k)
    ensures ShortKey(k) in ParamDict(p) <==> IsSet(FlagOf(p, k))
    ensures FlagOf(p, k) == On ==> ParamDict(p)[ShortKey(k)] == JBool(true)
    ensures FlagOf(p, k).Misplaced? ==> ParamDict(p)[ShortKey(k)] == Serialize(FlagOf(p, k).flagNode)
  {
    KeyEntriesLookup(p, |ParamKeys|, k);
    HeadEntriesKeys(p);
  }

  /** A short key is written exactly for an attribute that is present, with that node's
      serialization. */
  lemma FieldKeys(p: Param, k: ParamKey)
    requires !IsFlagKey(k)
    ensures ShortKey(k) in ParamDict(p) <==> k in p.fields
    ensures k in p.fields ==> ParamDict(p)[ShortKey(k)] == Serialize(p.fields[k])
  {
    KeyEntriesLookup(p, |ParamKeys|, k);
    HeadEntriesKeys(p);
  }

  /** `>` is written exactly when the parameter has a successor, as that parameter's form. */
  lemma NextKey(p: Param)
    ensures ">" in ParamDict(p) <==> p.next.Some?
    ensures p.next.Some? ==> ParamDict(p)[">"] == ParamJson(p.next.value)
  {
    KeyEntriesKeys(p, |ParamKeys|);
    HeadEntriesKeys(p);
  }

  /** No other key is ever written. */
  lemma OnlyKnownKeys(p: Param)
    ensures forall key :: key in ParamDict(p) ==> key == ">" || exists k :: key == ShortKey(k)
  {
    KeyEntriesKeys(p, |ParamKeys|);
    HeadEntriesKeys(p);
    assert "!" == ShortKey(ToBeFixed) && "@" == ShortKey(ToBeRefined);
  }
}
