/** The two library searches the component relies on: `Array.prototype.findIndex`
    (first index whose element satisfies a predicate, or -1) and the first-occurrence
    `String.prototype.replace` used to strip the `#` from the location hash. */
module Search {

  /** First index `r` with `p(s[r])`, or -1 when no element satisfies `p`. */
  function FindIndex<T>(s: seq<T>, p: T -> bool): (r: int)
    ensures -1 <= r < |s|
    ensures r >= 0 ==> p(s[r]) && forall j :: 0 <= j < r ==> !p(s[j])
    ensures r == -1 <==> forall j :: 0 <= j < |s| ==> !p(s[j])
    decreases |s|
  {
    if |s| == 0 then -1
    else if p(s[0]) then 0
    else
      var k := FindIndex(s[1..], p);
      if k == -1 then -1 else k + 1
  }

  /** `s.indexOf(c)`: the first position of `c` in `s`, or -1. */
  function IndexOf(s: string, c: char): (r: int)
    ensures -1 <= r < |s|
    ensures r >= 0 ==> s[r] == c && c !in s[..r]
    ensures r == -1 <==> c !in s
  {
    var r := FindIndex(s, (x: char) => x == c);
    assert r >= 0 ==> forall j :: 0 <= j < r ==> s[..r][j] != c;
    r
  }

  /** `s.replace(c, '')` with a one-character pattern: removes the FIRST occurrence
      of `c` only, and leaves `s` alone when `c` does not occur. */
  function RemoveFirst(s: string, c: char): (r: string)
    ensures c !in s ==> r == s
    ensures c in s ==> |r| == |s| - 1
    ensures |s| > 0 && s[0] == c ==> r == s[1..]
  {
    var i := IndexOf(s, c);
    if i < 0 then s else s[..i] + s[i + 1..]
  }

  /** What `RemoveFirst` removes is the first occurrence: with `i` the first
      position of `c`, the result is `s` with position `i` cut out. */
  lemma RemoveFirstCutsFirst(s: string, c: char, i: int)
    requires 0 <= i < |s| && s[i] == c && c !in s[..i]
    ensures RemoveFirst(s, c) == s[..i] + s[i + 1..]
  {
  }
}
