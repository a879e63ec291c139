/** Template prefixes: validation, matching a path and overlapping each other. */
module PrefixRouting {

  const MAX_PREFIX_LEN: nat := 128

  // ------------------------------------------------------------------- trimming

  /** Unicode white space. */
  predicate IsSpace(ch: char) {
    var u := ch as int;
    || 9 <= u <= 13 || u == 32 || u == 0x85 || u == 0xA0
    || u == 0x1680 || 0x2000 <= u <= 0x200A || u == 0x2028 || u == 0x2029
    || u == 0x202F || u == 0x205F || u == 0x3000
  }

  predicate IsSlash(ch: char) {
    ch == '/'
  }

  function TrimLeft(s: string, drop: char -> bool): string {
    if s != [] && drop(s[0]) then TrimLeft(s[1..], drop) else s
  }

  function TrimRight(s: string, drop: char -> bool): (t: string)
    ensures t <= s && (t != [] ==> !drop(t[|t| - 1]))
    ensures forall k :: |t| <= k < |s| ==> drop(s[k])
  {
    if s != [] && drop(s[|s| - 1]) then TrimRight(s[..|s| - 1], drop) else s
  }

  function TrimSpace(s: string): string {
    TrimRight(TrimLeft(s, IsSpace), IsSpace)
  }

  function TrimOneSlash(s: string): string {
    if s != [] && s[0] == '/' then s[1..] else s
  }

  /** A string with no white space at either end is left alone. */
  lemma TrimSpaceKeeps(s: string)
    requires s == [] || (!IsSpace(s[0]) && !IsSpace(s[|s| - 1]))
    ensures TrimSpace(s) == s
  {
  }

  // ----------------------------------------------------------------- validation

  predicate IsPrefixChar(ch: char) {
    'A' <= ch <= 'Z' || 'a' <= ch <= 'z' || '0' <= ch <= '9' || ch == '_' || ch == '-' || ch == '/'
  }

  predicate ValidPrefix(p: string) {
    var s := TrimSpace(p);
    && s != [] && |s| <= MAX_PREFIX_LEN
    && (forall i :: 0 <= i < |s| ==> IsPrefixChar(s[i]))
    && !(exists i :: 0 <= i < |s| && "//" <= s[i..])
    && s[0] != '/'
  }

  function Normalise(s: string): string {
    TrimRight(TrimSpace(s), IsSlash)
  }

  // ------------------------------------------------------------ match and overlap

  /** The path is the prefix or lies under it, on a segment boundary. */
  predicate Under(path: string, prefix: string) {
    path == prefix || prefix + "/" <= path
  }

  function CanonPath(p: string): string {
    TrimOneSlash(TrimSpace(p))
  }

  predicate PrefixMatches(prefix: string, path: string) {
    Normalise(prefix) != "" && Under(CanonPath(path), Normalise(prefix))
  }

  predicate PrefixesOverlap(a: string, b: string) {
    var x, y := Normalise(a), Normalise(b);
    x != "" && y != "" && (x == y || x + "/" <= y || y + "/" <= x)
  }

  /** The path that spells a canonical one literally. */
  function Spelled(canon: string): string {
    "/" + canon + "/x"
  }

  lemma SpelledPath(canon: string)
    ensures CanonPath(Spelled(canon)) == canon + "/x"
  {
    var s := Spelled(canon);
    assert s[0] == '/' && s[|s| - 1] == 'x';
    TrimSpaceKeeps(s);
    assert s[1..] == canon + "/x";
  }

  lemma UnderBoth(path: string, x: string, y: string)
    requires Under(path, x) && Under(path, y) && |x| <= |y|
    ensures x == y || x + "/" <= y
  {
    var p := path + "/";
    assert x + "/" <= p && y + "/" <= p;
    if |x| < |y| {
      assert (x + "/")[..] == p[..|x| + 1] == y[..|x| + 1];
    } else {
      assert x == p[..|x|] == y;
    }
  }

  /** Two prefixes overlap exactly when some path is matched by both; this needs
      no validation. */
  lemma OverlapExactly(a: string, b: string)
    ensures PrefixesOverlap(a, b) <==> exists path :: PrefixMatches(a, path) && PrefixMatches(b, path)
  {
    var x, y := Normalise(a), Normalise(b);
    if PrefixesOverlap(a, b) {
      var longer := if |x| < |y| then y else x;
      SpelledPath(longer);
      assert x + "/" <= longer + "/x" && y + "/" <= longer + "/x";
      assert PrefixMatches(a, Spelled(longer)) && PrefixMatches(b, Spelled(longer));
    }
    if path :| PrefixMatches(a, path) && PrefixMatches(b, path) {
      if |x| <= |y| {
        UnderBoth(CanonPath(path), x, y);
      } else {
        UnderBoth(CanonPath(path), y, x);
      }
    }
  }

  /** A valid prefix normalises to itself trimmed, not empty, not starting with a
      slash. */
  lemma ValidNormal(p: string)
    requires ValidPrefix(p)
    ensures Normalise(p) != "" && Normalise(p)[0] != '/'
  {
    var s := TrimSpace(p);
    assert !IsSlash(s[0]);
  }
}
