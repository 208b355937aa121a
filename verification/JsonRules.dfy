/** What the strict reader refuses: an object with a key twice, at any depth. */
module JsonRules {
  import opened Basics
  import opened Json
  import opened JsonText

  // No object in the value has a key twice.
  predicate NoRepeats(j: Json)
    decreases j, 1
  {
    j.JObj? ==> Distinct(j.members) && MembersNoRepeats(j.members)
  }

  predicate MembersNoRepeats(ms: seq<Member>)
    decreases ms, 0
  {
    forall i :: 0 <= i < |ms| ==> NoRepeats(ms[i].value)
  }

  lemma {:induction false} ValueNoRepeats(s: Text)
    ensures ParseValue(s).Some? ==> NoRepeats(ParseValue(s).value.0)
    decreases |s|, 0
  {
    hide ParseChars, StartsWith, ParseInt, Distinct;
    if s != [] && s[0] == 123 { ObjectNoRepeats(s[1..]); }
    hide ParseObject, MembersNoRepeats;
  }

  lemma {:induction false} ObjectNoRepeats(s: Text)
    ensures ParseObject(s).Some? ==> MembersNoRepeats(ParseObject(s).value.0)
    decreases |s|, 2
  {
    hide NoRepeats;
    AllNoRepeats(SkipWs(s));
    hide ParseMembers;
  }

  lemma {:induction false} AllNoRepeats(s: Text)
    ensures ParseMembers(s).Some? ==> MembersNoRepeats(ParseMembers(s).value.0)
    decreases |s|, 1
  {
    hide NoRepeats, ParseMember;
    if ParseMember(s).Some? {
      OneNoRepeats(s);
      var rest := SkipWs(ParseMember(s).value.1);
      if rest != [] && rest[0] == 44 && |rest| < |s| { AllNoRepeats(SkipWs(rest[1..])); }
    }
  }

  lemma {:induction false} OneNoRepeats(s: Text)
    ensures ParseMember(s).Some? ==> NoRepeats(ParseMember(s).value.0.value)
    decreases |s|, 0
  {
    hide NoRepeats, ParseValue;
    if s != [] && s[0] == 34 && ParseChars(s[1..]).Some? {
      var colon := SkipWs(ParseChars(s[1..]).value.1);
      if colon != [] && colon[0] == 58 { ValueNoRepeats(SkipWs(colon[1..])); }
    }
  }

  /** Whatever text is read, no object in the result has a key twice. */
  lemma LoadsNoRepeats(t: Text)
    ensures Loads(t).Some? ==> NoRepeats(Loads(t).value)
  {
    ValueNoRepeats(SkipWs(t));
    hide ParseValue, NoRepeats;
  }
}
