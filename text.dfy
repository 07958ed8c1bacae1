/**
  The string operations the pre-hook runner relies on: Python's `str.endswith`,
  `str.replace(" ", "_")`, `str.split(".")[0]` and POSIX `os.path.join`.
  Strings are sequences of Unicode scalar values: Python's `str` also admits lone
  surrogates, which a Dafny `char` cannot hold.
 */
module Text {

  predicate StartsWith(s: string, prefix: string) {
    |prefix| <= |s| && s[..|prefix|] == prefix
  }

  /** `s.endswith(suffix)` */
  predicate EndsWith(s: string, suffix: string) {
    |suffix| <= |s| && s[|s| - |suffix|..] == suffix
  }

  /** `s.replace(" ", "_")`: every space becomes an underscore. */
  function ReplaceSpaces(s: string): string {
    if s == [] then []
    else [if s[0] == ' ' then '_' else s[0]] + ReplaceSpaces(s[1..])
  }

  /** The rename keeps the length, turns each space into `_` and keeps every other character. */
  lemma {:induction false} ReplaceSpacesPointwise(s: string)
    ensures |ReplaceSpaces(s)| == |s|
    ensures forall i :: 0 <= i < |s| ==>
      ReplaceSpaces(s)[i] == (if s[i] == ' ' then '_' else s[i])
  {
    if s != [] {
      ReplaceSpacesPointwise(s[1..]);
    }
  }

  lemma NoSpaceAfterReplace(s: string)
    ensures ' ' !in ReplaceSpaces(s)
  {
    ReplaceSpacesPointwise(s);
    var r := ReplaceSpaces(s);
    forall i | 0 <= i < |r| ensures r[i] != ' ' { }
  }

  /** A name without spaces is left as it is; hence renaming twice is renaming once. */
  lemma {:induction false} ReplaceSpacesFixesSpaceFree(s: string)
    requires ' ' !in s
    ensures ReplaceSpaces(s) == s
  {
    if s != [] {
      assert s[0] in s;
      assert forall c :: c in s[1..] ==> c in s;
      ReplaceSpacesFixesSpaceFree(s[1..]);
    }
  }

  lemma ReplaceSpacesIdempotent(s: string)
    ensures ReplaceSpaces(ReplaceSpaces(s)) == ReplaceSpaces(s)
  {
    NoSpaceAfterReplace(s);
    ReplaceSpacesFixesSpaceFree(ReplaceSpaces(s));
  }

  /** `s.split(".")[0]`: the text before the first `.`, or all of `s` when it has none. */
  function BeforeFirstDot(s: string): string {
    if s == [] || s[0] == '.' then []
    else [s[0]] + BeforeFirstDot(s[1..])
  }

  lemma {:induction false} BeforeFirstDotSpec(s: string)
    ensures StartsWith(s, BeforeFirstDot(s))
    ensures '.' !in BeforeFirstDot(s)
    ensures BeforeFirstDot(s) == s || s[|BeforeFirstDot(s)|] == '.'
  {
    if s != [] && s[0] != '.' {
      BeforeFirstDotSpec(s[1..]);
      assert s == [s[0]] + s[1..];
    }
  }

  /**
    The head of `s.split(".")` equals `k` exactly when `k` holds no dot and `s` is
    `k` itself or `k` followed by a dot.
   */
  lemma {:induction false} BeforeFirstDotIs(s: string, k: string)
    ensures BeforeFirstDot(s) == k <==> '.' !in k && (s == k || StartsWith(s, k + "."))
  {
    if s == [] || s[0] == '.' {
      if k != [] {
        assert k[0] in k;
      }
    } else if k == [] {
    } else {
      BeforeFirstDotIs(s[1..], k[1..]);
      assert k == [k[0]] + k[1..];
      assert s == [s[0]] + s[1..];
      assert forall c :: c in k[1..] ==> c in k;
      assert k[0] in k;
      if StartsWith(s, k + ".") {
        assert s[1..][..|k[1..] + "."|] == s[..|k + "."|][1..];
      }
      if StartsWith(s[1..], k[1..] + ".") && s[0] == k[0] {
        assert s[..|k + "."|] == [s[0]] + s[1..][..|k[1..] + "."|];
      }
    }
  }

  /** What `os.path.join(folder, name)` puts in front of a relative `name`. */
  function JoinPrefix(folder: string): string {
    if folder == [] || EndsWith(folder, "/") then folder else folder + "/"
  }

  /** POSIX `os.path.join(folder, name)`: an absolute `name` replaces the folder. */
  function Join(folder: string, name: string): string {
    if StartsWith(name, "/") then name else JoinPrefix(folder) + name
  }

  /** A name as `os.listdir` returns it: never empty and never holding a `/`. */
  predicate ListingName(name: string) {
    name != [] && '/' !in name
  }

  lemma JoinListingName(folder: string, name: string)
    requires ListingName(name)
    ensures Join(folder, name) == JoinPrefix(folder) + name
    ensures EndsWith(Join(folder, name), name)
  {
    assert name[0] in name;
    var j := Join(folder, name);
    assert j[|j| - |name|..] == name;
  }
}
