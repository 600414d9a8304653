/** Domain labels, and the file name a registration record is kept under. */
module Labels {
  import opened Prelude

  /** ASCII lower-casing; other characters are left as they are. */
  function LowerChar(c: char): char
  {
    if 'A' <= c <= 'Z' then (c as int + 32) as char else c
  }

  function Lower(s: string): (r: string)
    ensures |r| == |s|
    ensures forall i :: 0 <= i < |s| ==> r[i] == LowerChar(s[i])
  {
    seq(|s|, i requires 0 <= i < |s| => LowerChar(s[i]))
  }

  predicate IsSpace(c: char)
  {
    c in {' ', '\t', '\n', '\r'}
  }

  function TrimStart(s: string): string
  {
    if s != [] && IsSpace(s[0]) then TrimStart(s[1..]) else s
  }

  function TrimEnd(s: string): string
    decreases |s|
  {
    if s != [] && IsSpace(s[|s| - 1]) then TrimEnd(s[..|s| - 1]) else s
  }

  predicate EndsWith(s: string, suffix: string)
  {
    |suffix| <= |s| && s[|s| - |suffix|..] == suffix
  }

  /** A name or `name.dot`, trimmed, in lower case, without the suffix. */
  function NormaliseLabel(name: string): string
  {
    var raw := Lower(TrimEnd(TrimStart(name)));
    if EndsWith(raw, ".dot") then raw[..|raw| - 4] else raw
  }

  predicate IsDigit(c: char)
  {
    '0' <= c <= '9'
  }

  predicate IsLabelChar(c: char)
  {
    'a' <= c <= 'z' || IsDigit(c) || c == '-'
  }

  method CountTrailingDigits(name: string) returns (count: nat)
    ensures count == TrailingDigits(name)
  {
    count := 0;
    var characterIndex := |name| - 1;
    while characterIndex >= 0 && IsDigit(name[characterIndex])
      invariant -1 <= characterIndex < |name|
      invariant characterIndex + 1 + count == |name|
      invariant TrailingDigits(name) == count + TrailingDigits(name[..characterIndex + 1])
      decreases characterIndex
    {
      assert name[..characterIndex + 1][..characterIndex] == name[..characterIndex];
      count := count + 1;
      characterIndex := characterIndex - 1;
    }
  }

  function TrailingDigits(name: string): (n: nat)
    ensures n <= |name|
    ensures forall i :: |name| - n <= i < |name| ==> IsDigit(name[i])
    ensures n < |name| ==> !IsDigit(name[|name| - n - 1])
    decreases |name|
  {
    if name != [] && IsDigit(name[|name| - 1]) then 1 + TrailingDigits(name[..|name| - 1]) else 0
  }

  function StripTrailingDigits(name: string): string
  {
    name[..|name| - TrailingDigits(name)]
  }

  /** `validateDomainLabel` lets the label through. */
  predicate ValidDomainLabel(name: string)
  {
    && |name| >= 3
    && (forall i :: 0 <= i < |name| ==> IsLabelChar(name[i]))
    && name[0] != '-' && name[|name| - 1] != '-'
    && TrailingDigits(name) in {0, 2}
  }

  /** `validateGovernanceLabel` lets the label through. */
  predicate ValidGovernanceLabel(name: string)
  {
    ValidDomainLabel(name) && |StripTrailingDigits(name)| <= 5
  }

  /** A valid label is what it normalises to: nothing to trim, lower or cut off. */
  lemma ValidLabelIsNormal(name: string)
    requires ValidDomainLabel(name)
    ensures NormaliseLabel(name) == name
  {
    assert IsLabelChar(name[0]) && IsLabelChar(name[|name| - 1]);
    assert TrimStart(name) == name && TrimEnd(name) == name;
    assert Lower(name) == name;
    assert |name| >= 4 ==> name[|name| - 4..][0] == name[|name| - 4] != '.';
  }

  // ---- record ids ------------------------------------------------------------

  const SEPARATOR := "__"

  function RecordId(env: string, caller: string, name: string): string
  {
    env + SEPARATOR + Lower(caller) + SEPARATOR + Lower(name)
  }

  predicate NoUnderscore(s: string)
  {
    '_' !in s
  }

  /** A head without underscores can be read off from the left. */
  lemma SplitIsUnique(s: string, a: string, t: string, b: string)
    requires NoUnderscore(s) && NoUnderscore(t)
    requires s + SEPARATOR + a == t + SEPARATOR + b
    ensures s == t && a == b
  {
    var whole := s + SEPARATOR + a;
    assert whole == t + SEPARATOR + b;
    assert whole[|s|] == '_' && whole[|t|] == '_';
    assert forall k :: 0 <= k < |s| ==> whole[k] == s[k];
    assert forall k :: 0 <= k < |t| ==> whole[k] == t[k];
    assert |s| == |t|;
    assert whole[..|s|] == s && whole[..|t|] == t;
    assert whole[|s| + 2..] == a && whole[|t| + 2..] == b;
  }

  lemma LowerHasNoUnderscore(s: string)
    ensures NoUnderscore(s) <==> NoUnderscore(Lower(s))
  {
    if i :| 0 <= i < |s| && s[i] == '_' {
      assert Lower(s)[i] == '_';
    }
    if i :| 0 <= i < |s| && Lower(s)[i] == '_' {
      assert s[i] == '_';
    }
  }

  /** The environments there are. */
  const DOTNS_ENVIRONMENT_IDS: seq<string> := ["paseo-v2", "previewnet"]

  lemma EnvironmentsHaveNoUnderscore(env: string)
    requires env in DOTNS_ENVIRONMENT_IDS
    ensures NoUnderscore(env)
  {
    assert forall e :: e in DOTNS_ENVIRONMENT_IDS ==> e == "paseo-v2" || e == "previewnet";
  }

  /** Two records share an id if and only if they are of the same environment and, up to case, of the same caller and label.
      Only the environment and the caller have to be free of underscores, as the environments and hexadecimal addresses are;
      a label may be anything. */
  lemma RecordIdInjective(env: string, caller: string, name: string, env': string, caller': string, name': string)
    requires NoUnderscore(env) && NoUnderscore(env') && NoUnderscore(caller) && NoUnderscore(caller')
    ensures RecordId(env, caller, name) == RecordId(env', caller', name') <==>
            env == env' && Lower(caller) == Lower(caller') && Lower(name) == Lower(name')
  {
    if RecordId(env, caller, name) == RecordId(env', caller', name') {
      var tail, tail' := Lower(caller) + SEPARATOR + Lower(name), Lower(caller') + SEPARATOR + Lower(name');
      LowerHasNoUnderscore(caller);
      LowerHasNoUnderscore(caller');
      assert RecordId(env, caller, name) == env + SEPARATOR + tail;
      assert RecordId(env', caller', name') == env' + SEPARATOR + tail';
      SplitIsUnique(env, tail, env', tail');
      SplitIsUnique(Lower(caller), Lower(name), Lower(caller'), Lower(name'));
    }
  }

  lemma ValidLabelIsLower(name: string)
    requires ValidDomainLabel(name)
    ensures Lower(name) == name
  {
  }

  /** Within one environment and caller the id determines the label up to case, whatever the environment, caller and label. */
  lemma RecordIdDeterminesLabel(env: string, caller: string, name: string, caller': string, name': string)
    requires Lower(caller) == Lower(caller')
    requires RecordId(env, caller, name) == RecordId(env, caller', name')
    ensures Lower(name) == Lower(name')
    ensures ValidDomainLabel(name) && ValidDomainLabel(name') ==> name == name'
  {
    var head := env + SEPARATOR + Lower(caller) + SEPARATOR;
    assert RecordId(env, caller, name)[|head|..] == Lower(name);
    assert RecordId(env, caller', name')[|head|..] == Lower(name');
    if ValidDomainLabel(name) && ValidDomainLabel(name') {
      ValidLabelIsLower(name);
      ValidLabelIsLower(name');
    }
  }
}
