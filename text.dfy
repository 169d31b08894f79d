/**
 * The string operations the components use: ASCII case folding in place of
 * `toLowerCase`, `trim`, `includes` on strings and `join`.
 */
module Text {

  /** Folds one ASCII upper-case letter to lower case; every other character is kept. */
  function FoldChar(c: char): (r: char)
    ensures 'A' <= c <= 'Z' ==> r as int == c as int + 32
    ensures !('A' <= c <= 'Z') ==> r == c
    ensures !('A' <= r <= 'Z')
  {
    if 'A' <= c <= 'Z' then (c as int + 32) as char else c
  }

  /** `s.toLowerCase()`, restricted to ASCII letters. */
  function Lower(s: string): (r: string)
    ensures |r| == |s|
    ensures forall i :: 0 <= i < |s| ==> r[i] == FoldChar(s[i])
  {
    seq(|s|, i requires 0 <= i < |s| => FoldChar(s[i]))
  }

  /** Two strings equal up to the case of their letters. */
  predicate SameIgnoringCase(a: string, b: string) {
    |a| == |b| && forall i :: 0 <= i < |a| ==> FoldChar(a[i]) == FoldChar(b[i])
  }

  /** Comparing lower-cased strings is exactly comparing up to case. */
  lemma LowerEqIffSameIgnoringCase(a: string, b: string)
    ensures Lower(a) == Lower(b) <==> SameIgnoringCase(a, b)
  {
    if SameIgnoringCase(a, b) {
      assert forall i :: 0 <= i < |a| ==> Lower(a)[i] == Lower(b)[i];
    }
    if Lower(a) == Lower(b) {
      assert forall i :: 0 <= i < |a| ==> FoldChar(a[i]) == Lower(a)[i] == Lower(b)[i] == FoldChar(b[i]);
    }
  }

  /** Folding twice is folding once. */
  lemma LowerIdempotent(s: string)
    ensures Lower(Lower(s)) == Lower(s)
  {
    assert forall i :: 0 <= i < |s| ==> Lower(Lower(s))[i] == Lower(s)[i];
  }

  /** The ASCII white-space characters `trim` removes. */
  predicate IsSpace(c: char) {
    c == ' ' || c == '\t' || c == '\n' || c == '\r' || c == '\U{B}' || c == '\U{C}'
  }

  /** `s.trimStart()`. */
  function TrimStart(s: string): (r: string)
    ensures |r| <= |s| && r == s[|s| - |r|..]
    ensures r == [] || !IsSpace(r[0])
    ensures forall i :: 0 <= i < |s| - |r| ==> IsSpace(s[i])
  {
    if s == [] || !IsSpace(s[0]) then s else TrimStart(s[1..])
  }

  /** `s.trimEnd()`. */
  function TrimEnd(s: string): (r: string)
    ensures |r| <= |s| && r == s[..|r|]
    ensures r == [] || !IsSpace(r[|r| - 1])
    ensures forall i :: |r| <= i < |s| ==> IsSpace(s[i])
  {
    if s == [] || !IsSpace(s[|s| - 1]) then s else TrimEnd(s[..|s| - 1])
  }

  /** `s.trim()`. */
  function Trim(s: string): (r: string)
    ensures r == [] || (!IsSpace(r[0]) && !IsSpace(r[|r| - 1]))
  {
    TrimEnd(TrimStart(s))
  }

  /** A string is blank (its trim is empty) exactly when all of it is white space. */
  lemma TrimEmptyIffAllSpace(s: string)
    ensures Trim(s) == [] <==> forall i :: 0 <= i < |s| ==> IsSpace(s[i])
  {
    if forall i :: 0 <= i < |s| ==> IsSpace(s[i]) {
      AllSpaceTrimStart(s);
    }
  }

  lemma {:induction false} AllSpaceTrimStart(s: string)
    requires forall i :: 0 <= i < |s| ==> IsSpace(s[i])
    ensures TrimStart(s) == []
  {
    if s != [] {
      AllSpaceTrimStart(s[1..]);
    }
  }

  /** Trimming an already trimmed string changes nothing. */
  lemma TrimIdempotent(s: string)
    ensures Trim(Trim(s)) == Trim(s)
  {
  }

  /** `hay.includes(needle)`: `needle` occurs in `hay` as a contiguous block. */
  predicate Contains(hay: string, needle: string)
    decreases |hay|
  {
    needle <= hay || (hay != [] && Contains(hay[1..], needle))
  }

  /** `Contains` holds exactly when `needle` sits at some offset of `hay`. */
  lemma {:induction false} ContainsIffAt(hay: string, needle: string)
    ensures Contains(hay, needle) <==>
      exists i :: 0 <= i <= |hay| - |needle| && needle == hay[i..][..|needle|]
    decreases |hay|
  {
    if needle <= hay {
      assert hay[0..] == hay;
    }
    if hay != [] {
      ContainsIffAt(hay[1..], needle);
      if Contains(hay[1..], needle) {
        var i :| 0 <= i <= |hay[1..]| - |needle| && needle == hay[1..][i..][..|needle|];
        assert hay[1..][i..] == hay[i + 1..];
      }
      if !(needle <= hay) {
        forall i | 1 <= i <= |hay| - |needle| && needle == hay[i..][..|needle|]
          ensures Contains(hay[1..], needle)
        {
          assert hay[1..][i - 1..] == hay[i..];
        }
      }
    }
  }

  /** Every string includes the empty string, and includes itself. */
  lemma ContainsEmptyAndSelf(s: string)
    ensures Contains(s, "")
    ensures Contains(s, s)
  {
  }

  /** `xs.join(sep)`. */
  function Join(xs: seq<string>, sep: string): (r: string)
    ensures xs == [] ==> r == ""
    ensures |xs| == 1 ==> r == xs[0]
    decreases |xs|
  {
    if xs == [] then ""
    else if |xs| == 1 then xs[0]
    else Join(xs[..|xs| - 1], sep) + sep + xs[|xs| - 1]
  }

  /** Joining one more string adds the separator and that string at the end. */
  lemma JoinSnoc(xs: seq<string>, x: string, sep: string)
    requires xs != []
    ensures Join(xs + [x], sep) == Join(xs, sep) + sep + x
  {
    assert (xs + [x])[..|xs + [x]| - 1] == xs;
  }

  /** The length of a join is the lengths of the parts plus one separator between each two. */
  lemma {:induction false} JoinLength(xs: seq<string>, sep: string)
    requires xs != []
    ensures |Join(xs, sep)| == TotalLength(xs) + (|xs| - 1) * |sep|
    decreases |xs|
  {
    if |xs| > 1 {
      var init, last := xs[..|xs| - 1], xs[|xs| - 1];
      var n := |init| - 1;
      JoinLength(init, sep);
      TotalLengthSnoc(init, last);
      assert init + [last] == xs;
      assert |Join(xs, sep)| == |Join(init, sep)| + |sep| + |last|;
      assert (n + 1) * |sep| == n * |sep| + |sep|;
    }
  }

  /** Sum of the lengths of some strings. */
  function TotalLength(xs: seq<string>): nat {
    if xs == [] then 0 else |xs[0]| + TotalLength(xs[1..])
  }

  lemma {:induction false} TotalLengthSnoc(xs: seq<string>, x: string)
    ensures TotalLength(xs + [x]) == TotalLength(xs) + |x|
  {
    if xs != [] {
      assert (xs + [x])[1..] == xs[1..] + [x];
      TotalLengthSnoc(xs[1..], x);
    }
  }
}
