/** Normalisation of role-guide entries: `re.sub("\(.*\)", "", name)` drops
    an annotation such as "(2)" from a role name, and a leading "-" marks an
    entry that subtracts from the role it names. */
module RoleNames {
  import opened Common

  /** Index of the first `c` in `s`, or `|s|` when there is none. */
  function FirstIndex(s: string, c: char): (i: nat)
    ensures i <= |s|
    ensures i < |s| ==> s[i] == c
    ensures forall j :: 0 <= j < i ==> s[j] != c
  {
    if |s| == 0 then 0
    else if s[0] == c then 0
    else 1 + FirstIndex(s[1..], c)
  }

  /** Index of the last `c` in `s`, or -1 when there is none. */
  function LastIndex(s: string, c: char): (i: int)
    ensures -1 <= i < |s|
    ensures i >= 0 ==> s[i] == c
    ensures forall j :: i < j < |s| ==> s[j] != c
  {
    if |s| == 0 then -1
    else if s[|s| - 1] == c then |s| - 1
    else LastIndex(s[..|s| - 1], c)
  }

  /** The regular expression `\(.*\)` matches somewhere in `s`: an opening
      parenthesis before a closing one. */
  ghost predicate HasAnnotation(s: string) {
    exists a, b :: 0 <= a < b < |s| && s[a] == '(' && s[b] == ')'
  }

  /** The greedy match runs from the first "(" to the last ")" and, since
      no ")" follows it, is the only one `re.sub` replaces. */
  function Strip(s: string): string
  {
    var i := FirstIndex(s, '(');
    var j := LastIndex(s, ')');
    if i < j then s[..i] + s[j + 1..] else s
  }

  /** Stripping leaves no annotation behind. */
  lemma StripRemovesAnnotation(s: string)
    ensures !HasAnnotation(Strip(s))
  {
    var i := FirstIndex(s, '(');
    var j := LastIndex(s, ')');
    if i < j {
      CutHasNoAnnotation(s, i, j);
    } else {
      NoPairWhenUncut(s, i, j);
    }
  }

  /** A name without an annotation is left as it is. */
  lemma StripKeepsPlainName(s: string)
    requires !HasAnnotation(s)
    ensures Strip(s) == s
  {
  }

  /** The result is the name with one contiguous piece cut out. */
  lemma StripIsCut(s: string)
    ensures exists i, j :: 0 <= i <= j <= |s| && Strip(s) == s[..i] + s[j..]
  {
    var i := FirstIndex(s, '(');
    var j := LastIndex(s, ')');
    if i < j {
      assert Strip(s) == s[..i] + s[j + 1..];
    } else {
      assert Strip(s) == s[..0] + s[0..];
    }
  }

  /** When the first "(" is not before the last ")", there is no annotation. */
  lemma NoPairWhenUncut(s: string, i: nat, j: int)
    requires i == FirstIndex(s, '(') && j == LastIndex(s, ')') && !(i < j)
    ensures !HasAnnotation(s)
  {
    forall a, b | 0 <= a < b < |s| && s[a] == '('
      ensures s[b] != ')'
    {
      assert i <= a;
    }
  }

  /** Cutting out everything from the first "(" to the last ")" leaves every
      ")" before every "(". */
  lemma CutHasNoAnnotation(s: string, i: nat, j: int)
    requires i == FirstIndex(s, '(') && j == LastIndex(s, ')') && i < j
    ensures !HasAnnotation(s[..i] + s[j + 1..])
  {
    var r := s[..i] + s[j + 1..];
    forall a | 0 <= a < |r|
      ensures r[a] == '(' ==> a >= i
      ensures r[a] == ')' ==> a < i
    {
      if a < i { assert r[a] == s[a]; } else { assert r[a] == s[a - i + j + 1]; }
    }
  }

  /** Stripping a stripped name changes nothing. */
  lemma StripIdempotent(s: string)
    ensures Strip(Strip(s)) == Strip(s)
  {
    StripRemovesAnnotation(s);
    StripKeepsPlainName(Strip(s));
  }

  /** The name a "-" entry subtracts from. */
  function Negated(x: Role): (r: Role)
    ensures |r| == |x| + 1 && r[0] == '-' && r[1..] == x
  {
    "-" + x
  }

  /** An entry counts positively when it is non-empty and does not start with "-". */
  predicate IsPlain(x: Role) {
    |x| > 0 && x[0] != '-'
  }

  /** Every entry starting with "-" is the negation of its tail. */
  lemma NegatedTail(role: Role)
    requires |role| > 0 && role[0] == '-'
    ensures Negated(role[1..]) == role
  {
    assert role == [role[0]] + role[1..];
  }
}
