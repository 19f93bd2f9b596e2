/** The two string helpers of the service package: the alias key used for
    fuzzy name lookups, and the set-style append used for alias and
    participation lists. */
module Service {

  /** Lower-casing of one character, over ASCII. */
  function Lower(c: char): char
  {
    if 'A' <= c <= 'Z' then (c as int + 32) as char else c
  }

  /** Lower-casing of a whole string, character by character. */
  function ToLower(s: string): (r: string)
    ensures |r| == |s|
    ensures forall i :: 0 <= i < |s| ==> r[i] == Lower(s[i])
  {
    if s == [] then [] else [Lower(s[0])] + ToLower(s[1..])
  }

  /** Number of occurrences of `c` in `s`. */
  function Count(s: string, c: char): nat
  {
    if s == [] then 0 else (if s[0] == c then 1 else 0) + Count(s[1..], c)
  }

  /** Replacing every `c` in `s` by the empty string. */
  function RemoveAll(s: string, c: char): (r: string)
    ensures c !in r
    ensures |r| == |s| - Count(s, c)
    ensures forall x :: x in r <==> x in s && x != c
  {
    if s == [] then []
    else
      assert forall x :: x in s <==> x == s[0] || x in s[1..];
      (if s[0] == c then [] else [s[0]]) + RemoveAll(s[1..], c)
  }

  /** The alias key of a name: lower-cased, with every space character
      removed (other whitespace is kept). */
  function Aliasify(text: string): (r: string)
    ensures ' ' !in r
    ensures |r| == |text| - Count(text, ' ')
    ensures forall x :: x in text && x != ' ' ==> Lower(x) in r
  {
    LowerKeepsSpaces(text);
    var lowered := ToLower(text);
    assert forall x :: x in text ==> Lower(x) in lowered by {
      forall x | x in text ensures Lower(x) in lowered {
        var i :| 0 <= i < |text| && text[i] == x;
        assert lowered[i] == Lower(x);
      }
    }
    RemoveAll(lowered, ' ')
  }

  /** Lower-casing neither creates nor removes spaces. */
  lemma {:induction false} LowerKeepsSpaces(s: string)
    ensures Count(ToLower(s), ' ') == Count(s, ' ')
  {
    if s != [] {
      assert ToLower(s)[1..] == ToLower(s[1..]);
      LowerKeepsSpaces(s[1..]);
    }
  }

  /** Lower-casing and removing spaces commute: the alias key is the name
      with its spaces dropped and every remaining character lower-cased, in
      the original order. */
  lemma {:induction false} AliasifyDropsSpacesThenLowers(s: string)
    ensures Aliasify(s) == ToLower(RemoveAll(s, ' '))
  {
    if s != [] {
      AliasifyDropsSpacesThenLowers(s[1..]);
      var t := ToLower(s);
      assert t == [Lower(s[0])] + ToLower(s[1..]);
      assert t[1..] == ToLower(s[1..]);
      if s[0] == ' ' {
        assert RemoveAll(s, ' ') == RemoveAll(s[1..], ' ');
      } else {
        var u := RemoveAll(s, ' ');
        assert u == [s[0]] + RemoveAll(s[1..], ' ');
        assert u[1..] == RemoveAll(s[1..], ' ');
      }
    }
  }

  /** Removing a character that does not occur changes nothing. */
  lemma {:induction false} RemoveAbsent(s: string, c: char)
    requires c !in s
    ensures RemoveAll(s, c) == s
  {
    if s != [] {
      RemoveAbsent(s[1..], c);
      assert s == [s[0]] + s[1..];
    }
  }

  /** Lower-casing a string that is already lower-case changes nothing. */
  lemma LowerFixed(s: string)
    requires forall i :: 0 <= i < |s| ==> Lower(s[i]) == s[i]
    ensures ToLower(s) == s
  {
  }

  /** The alias key of an alias key is itself. */
  lemma AliasifyIdempotent(s: string)
    ensures Aliasify(Aliasify(s)) == Aliasify(s)
  {
    var a := Aliasify(s);
    var lowered := ToLower(s);
    forall i | 0 <= i < |a| ensures Lower(a[i]) == a[i] {
      assert a[i] in lowered;
      var j :| 0 <= j < |lowered| && lowered[j] == a[i];
      assert a[i] == Lower(s[j]);
    }
    LowerFixed(a);
    RemoveAbsent(a, ' ');
  }

  /** No string occurs twice in the list. */
  predicate NoDuplicates(a: seq<string>)
  {
    forall i, j :: 0 <= i < j < |a| ==> a[i] != a[j]
  }

  /** The list `a` with `e` appended unless `e` is already an element. */
  function AppendUnique(a: seq<string>, e: string): seq<string>
  {
    if e in a then a else a + [e]
  }

  /** Scans `a` for `e`, then appends `e` only if it was not found;
      `AppendUnique` is its specification. */
  method AppendWithoutDuplicates(a: seq<string>, e: string) returns (r: seq<string>)
    ensures r == AppendUnique(a, e)
    ensures e in a ==> r == a
    ensures e !in a ==> r == a + [e]
  {
    var found := false;
    for i := 0 to |a|
      invariant found <==> e in a[..i]
    {
      if a[i] == e {
        found := true;
      }
    }
    assert a[..|a|] == a;
    if !found {
      return a + [e];
    }
    return a;
  }

  /** The appended element is always present, nothing already present is
      lost, and at most one element is added. */
  lemma AppendUniqueContains(a: seq<string>, e: string)
    ensures e in AppendUnique(a, e)
    ensures forall x :: x in a ==> x in AppendUnique(a, e)
    ensures |a| <= |AppendUnique(a, e)| <= |a| + 1
    ensures AppendUnique(a, e)[..|a|] == a
  {
  }

  /** A duplicate-free list stays duplicate-free. */
  lemma AppendUniqueNoDuplicates(a: seq<string>, e: string)
    ensures NoDuplicates(a) ==> NoDuplicates(AppendUnique(a, e))
  {
  }

  /** Appending the same element twice is the same as appending it once. */
  lemma AppendUniqueIdempotent(a: seq<string>, e: string)
    ensures AppendUnique(AppendUnique(a, e), e) == AppendUnique(a, e)
  {
  }
}
