/** The auto-publish matcher: a push path finds the template that owns it. */
module Matcher {
  import opened Domain
  import opened PrefixRouting

  datatype Template = Template(code: string, prefixes: seq<string>)

  datatype Entry = Entry(prefix: string, owner: string)

  // --------------------------------------------------------------------- building

  function CanonPrefix(p: string): string {
    TrimRight(TrimLeft(TrimSpace(p), IsSlash), IsSlash)
  }

  function EntriesOf(t: Template, n: nat): seq<Entry>
    requires n <= |t.prefixes|
  {
    if n == 0 then []
    else
      EntriesOf(t, n - 1) + EntryFor(t.code, CanonPrefix(t.prefixes[n - 1]))
  }

  function EntryFor(code: string, canon: string): seq<Entry> {
    if canon == "" then [] else [Entry(canon, code)]
  }

  lemma EntriesExtend(before: seq<Entry>, t: Template, k: nat)
    requires k < |t.prefixes|
    ensures before + EntriesOf(t, k + 1) == (before + EntriesOf(t, k)) + EntryFor(t.code, CanonPrefix(t.prefixes[k]))
  {
  }

  function OwnEntries(template: Option<Template>): seq<Entry> {
    match template
    case None => []
    case Some(t) => EntriesOf(t, |t.prefixes|)
  }

  function Collected(templates: seq<Option<Template>>): seq<Entry> {
    if templates == [] then []
    else
      Collected(templates[..|templates| - 1]) + OwnEntries(templates[|templates| - 1])
  }

  predicate LongestFirst(entries: seq<Entry>) {
    forall i, j :: 0 <= i < j < |entries| ==> |entries[i].prefix| >= |entries[j].prefix|
  }

  /** The entries in some order a sort by falling length may leave them in; ties
      may fall either way. */
  ghost predicate Arranged(entries: seq<Entry>, collected: seq<Entry>) {
    LongestFirst(entries) && forall e :: e in entries <==> e in collected
  }

  // --------------------------------------------------------------------- matching

  /** The first entry the path lies under. */
  function FirstMatch(entries: seq<Entry>, path: string): Option<Entry> {
    if entries == [] then None
    else if Under(path, entries[0].prefix) then Some(entries[0])
    else FirstMatch(entries[1..], path)
  }

  class PathMatcher {
    var entries: seq<Entry>

    constructor (templates: seq<Option<Template>>)
      ensures Arranged(entries, Collected(templates)) && |entries| == |Collected(templates)|
    {
      var all: seq<Entry> := [];
      for i := 0 to |templates|
        invariant all == Collected(templates[..i])
      {
        assert templates[..i + 1][..i] == templates[..i];
        if templates[i].Some? {
          all := Collect(all, templates[i].value);
        }
      }
      assert templates[..|templates|] == templates;
      entries := Sorted(all);
    }

    static method Collect(before: seq<Entry>, t: Template) returns (all: seq<Entry>)
      ensures all == before + EntriesOf(t, |t.prefixes|)
    {
      all := before;
      for k := 0 to |t.prefixes|
        invariant all == before + EntriesOf(t, k)
      {
        var canon := CanonPrefix(t.prefixes[k]);
        EntriesExtend(before, t, k);
        if canon != "" {
          all := all + [Entry(canon, t.code)];
        }
      }
    }

    method Match(path: string) returns (owner: Option<string>)
      ensures owner == Owner(entries, path)
    {
      var canon := CanonPath(path);
      if canon == "" { return None; }
      for i := 0 to |entries|
        invariant FirstMatch(entries, canon) == FirstMatch(entries[i..], canon)
      {
        if Under(canon, entries[i].prefix) { return Some(entries[i].owner); }
      }
      return None;
    }
  }

  function Owner(entries: seq<Entry>, path: string): Option<string> {
    var canon := CanonPath(path);
    if canon == "" then None
    else
      match FirstMatch(entries, canon)
      case None => None
      case Some(e) => Some(e.owner)
  }

  /** A sort by falling length. */
  function Sorted(entries: seq<Entry>): (r: seq<Entry>)
    ensures LongestFirst(r) && |r| == |entries| && forall e :: e in r <==> e in entries
  {
    if entries == [] then []
    else
      assert entries == entries[..|entries| - 1] + [entries[|entries| - 1]];
      Inserted(Sorted(entries[..|entries| - 1]), entries[|entries| - 1])
  }

  function Inserted(entries: seq<Entry>, e: Entry): (r: seq<Entry>)
    requires LongestFirst(entries)
    ensures LongestFirst(r) && |r| == |entries| + 1 && forall x :: x in r <==> x in entries || x == e
  {
    if entries == [] || |e.prefix| >= |entries[0].prefix| then [e] + entries
    else
      var rest := Inserted(entries[1..], e);
      HeadLongest(entries);
      LongestCons(entries[0], rest);
      assert entries == [entries[0]] + entries[1..];
      [entries[0]] + rest
  }

  lemma HeadLongest(entries: seq<Entry>)
    requires LongestFirst(entries) && entries != []
    ensures forall x :: x in entries ==> |x.prefix| <= |entries[0].prefix|
  {
  }

  lemma LongestCons(e: Entry, rest: seq<Entry>)
    requires LongestFirst(rest) && forall x :: x in rest ==> |x.prefix| <= |e.prefix|
    ensures LongestFirst([e] + rest)
  {
    assert forall k :: 0 <= k < |rest| ==> rest[k] in rest;
  }

  // ------------------------------------------------------------------- correctness

  /** The prefix belongs to a template with this code. */
  predicate Declares(templates: seq<Option<Template>>, code: string, p: string) {
    exists i :: 0 <= i < |templates| && templates[i].Some? && templates[i].value.code == code && p in templates[i].value.prefixes
  }

  /** Some prefix of a template with this code matches the path. */
  ghost predicate Routed(templates: seq<Option<Template>>, code: string, path: string) {
    exists p :: Declares(templates, code, p) && PrefixMatches(p, path)
  }

  /** Every prefix passed validation. */
  ghost predicate AllValid(templates: seq<Option<Template>>) {
    forall code, p :: Declares(templates, code, p) ==> ValidPrefix(p)
  }

  /** Prefixes of different templates do not overlap. */
  ghost predicate Partitioned(templates: seq<Option<Template>>) {
    forall c, d, p, q :: Declares(templates, c, p) && Declares(templates, d, q) && c != d ==> !PrefixesOverlap(p, q)
  }

  predicate HasCanon(prefixes: seq<string>, n: nat, canon: string)
    requires n <= |prefixes|
  {
    n > 0 && (HasCanon(prefixes, n - 1, canon) || CanonPrefix(prefixes[n - 1]) == canon)
  }

  lemma {:induction false} HasCanonMeans(prefixes: seq<string>, n: nat, canon: string)
    requires n <= |prefixes|
    ensures HasCanon(prefixes, n, canon) <==> exists k :: 0 <= k < n && CanonPrefix(prefixes[k]) == canon
  {
    if n > 0 {
      HasCanonMeans(prefixes, n - 1, canon);
    }
  }

  lemma {:induction false} EntriesOfExactly(t: Template, n: nat, e: Entry)
    requires n <= |t.prefixes|
    ensures e in EntriesOf(t, n) <==> e.prefix != "" && e.owner == t.code && HasCanon(t.prefixes, n, e.prefix)
  {
    if n > 0 {
      EntriesOfExactly(t, n - 1, e);
    }
  }

  lemma {:induction false} CollectedExactly(templates: seq<Option<Template>>, e: Entry)
    ensures e in Collected(templates) <==> e.prefix != "" && DeclaresCanon(templates, e)
  {
    if templates != [] {
      var front, last := templates[..|templates| - 1], templates[|templates| - 1];
      CollectedExactly(front, e);
      assert e in Collected(templates) <==> e in Collected(front) || e in OwnEntries(last);
      assert templates == front + [last];
      DeclaresCanonSnoc(front, last, e);
      OwnExactly(last, e);
    }
  }

  /** Some prefix the owner declares has this canonical form. */
  ghost predicate DeclaresCanon(templates: seq<Option<Template>>, e: Entry) {
    exists p :: Declares(templates, e.owner, p) && CanonPrefix(p) == e.prefix
  }

  /** This template, present and with the owner's code, does. */
  ghost predicate OwnCanon(template: Option<Template>, e: Entry) {
    template.Some? && template.value.code == e.owner && exists p :: p in template.value.prefixes && CanonPrefix(p) == e.prefix
  }

  lemma OwnExactly(template: Option<Template>, e: Entry)
    ensures e in OwnEntries(template) <==> e.prefix != "" && OwnCanon(template, e)
  {
    if template.Some? {
      TemplateExactly(template.value, e);
    }
  }

  lemma DeclaresCanonSnoc(front: seq<Option<Template>>, last: Option<Template>, e: Entry)
    ensures DeclaresCanon(front + [last], e) <==>
            DeclaresCanon(front, e) || OwnCanon(last, e)
  {
    forall p ensures Declares(front + [last], e.owner, p) <==>
                     Declares(front, e.owner, p) || (last.Some? && last.value.code == e.owner && p in last.value.prefixes)
    {
      DeclaresSnoc(front, last, e.owner, p);
    }
  }

  lemma TemplateExactly(t: Template, e: Entry)
    ensures e in EntriesOf(t, |t.prefixes|) <==>
            e.prefix != "" && e.owner == t.code && exists p :: p in t.prefixes && CanonPrefix(p) == e.prefix
  {
    EntriesOfExactly(t, |t.prefixes|, e);
    HasCanonMeans(t.prefixes, |t.prefixes|, e.prefix);
    if p :| p in t.prefixes && CanonPrefix(p) == e.prefix {
      var k :| 0 <= k < |t.prefixes| && t.prefixes[k] == p;
    }
  }

  lemma DeclaresSnoc(front: seq<Option<Template>>, last: Option<Template>, code: string, p: string)
    ensures Declares(front + [last], code, p) <==>
            Declares(front, code, p) || (last.Some? && last.value.code == code && p in last.value.prefixes)
  {
    var all := front + [last];
    if Declares(front, code, p) {
      var i :| 0 <= i < |front| && front[i].Some? && front[i].value.code == code && p in front[i].value.prefixes;
      assert all[i] == front[i];
    }
    assert all[|front|] == last;
  }

  /** The first match is the longest. */
  lemma {:induction false} FirstMatchExactly(entries: seq<Entry>, path: string)
    requires LongestFirst(entries)
    ensures var r := FirstMatch(entries, path);
            && (r.None? <==> forall e :: e in entries ==> !Under(path, e.prefix))
            && (r.Some? ==>
                  && r.value in entries && Under(path, r.value.prefix)
                  && forall e :: e in entries && Under(path, e.prefix) ==> |e.prefix| <= |r.value.prefix|)
  {
    if entries != [] {
      forall e ensures e in entries <==> e == entries[0] || e in entries[1..] {
        InCons(entries, e);
      }
      if Under(path, entries[0].prefix) {
        forall e | e in entries ensures |e.prefix| <= |entries[0].prefix| {
          var i :| 0 <= i < |entries| && entries[i] == e;
        }
      } else {
        FirstMatchExactly(entries[1..], path);
      }
    }
  }

  lemma InCons(entries: seq<Entry>, e: Entry)
    requires entries != []
    ensures e in entries <==> e == entries[0] || e in entries[1..]
  {
    assert entries == [entries[0]] + entries[1..];
  }

  lemma ValidCanon(p: string)
    requires ValidPrefix(p)
    ensures CanonPrefix(p) == Normalise(p) != ""
  {
    ValidNormal(p);
    assert TrimLeft(TrimSpace(p), IsSlash) == TrimSpace(p);
  }

  /** A matched path is not empty, and then the matcher and the prefix test look
      at the same canonical path. */
  lemma EntryMatchesAsPrefix(p: string, path: string)
    requires ValidPrefix(p)
    ensures PrefixMatches(p, path) <==> CanonPath(path) != "" && Under(CanonPath(path), CanonPrefix(p))
  {
    ValidCanon(p);
  }

  /** With valid prefixes that never overlap across templates, the matcher returns
      exactly the template one of whose prefixes matches, and nothing when none
      does, however the sort left ties. */
  lemma MatcherExact(templates: seq<Option<Template>>, entries: seq<Entry>, path: string)
    requires AllValid(templates) && Partitioned(templates) && Arranged(entries, Collected(templates))
    ensures forall code :: Owner(entries, path) == Some(code) <==> Routed(templates, code, path)
  {
    FirstMatchExactly(entries, CanonPath(path));
    forall code ensures Owner(entries, path) == Some(code) <==> Routed(templates, code, path) {
      if Owner(entries, path) == Some(code) {
        FoundIsRouted(templates, entries, path, code);
      }
      if Routed(templates, code, path) {
        RoutedIsFound(templates, entries, path, code);
      }
    }
  }

  lemma FoundIsRouted(templates: seq<Option<Template>>, entries: seq<Entry>, path: string, code: string)
    requires AllValid(templates) && Arranged(entries, Collected(templates))
    requires Owner(entries, path) == Some(code)
    ensures Routed(templates, code, path)
  {
    FirstMatchExactly(entries, CanonPath(path));
    var e := FirstMatch(entries, CanonPath(path)).value;
    CollectedExactly(templates, e);
    var p :| Declares(templates, code, p) && CanonPrefix(p) == e.prefix;
    EntryMatchesAsPrefix(p, path);
  }

  lemma RoutedIsFound(templates: seq<Option<Template>>, entries: seq<Entry>, path: string, code: string)
    requires AllValid(templates) && Partitioned(templates) && Arranged(entries, Collected(templates))
    requires Routed(templates, code, path)
    ensures Owner(entries, path) == Some(code)
  {
    var p :| Declares(templates, code, p) && PrefixMatches(p, path);
    ValidCanon(p);
    EntryMatchesAsPrefix(p, path);
    FirstMatchExactly(entries, CanonPath(path));
    CollectedExactly(templates, Entry(CanonPrefix(p), code));
    assert Entry(CanonPrefix(p), code) in entries;
    var owner := Owner(entries, path).value;
    FoundIsRouted(templates, entries, path, owner);
    var q :| Declares(templates, owner, q) && PrefixMatches(q, path);
    OverlapExactly(p, q);
  }

  /** So neither the order of the templates nor the sort matters. */
  lemma OrderIrrelevant(a: seq<Option<Template>>, b: seq<Option<Template>>, x: seq<Entry>, y: seq<Entry>, path: string)
    requires AllValid(a) && Partitioned(a) && forall t :: Some(t) in a <==> Some(t) in b
    requires Arranged(x, Collected(a)) && Arranged(y, Collected(b))
    ensures Owner(x, path) == Owner(y, path)
  {
    forall code, p ensures Declares(a, code, p) <==> Declares(b, code, p) {
      SameDeclares(a, b, code, p);
      SameDeclares(b, a, code, p);
    }
    assert forall code :: Routed(a, code, path) <==> Routed(b, code, path);
    MatcherExact(a, x, path);
    MatcherExact(b, y, path);
    if Owner(x, path).Some? {
      assert Routed(a, Owner(x, path).value, path);
    }
    if Owner(y, path).Some? {
      assert Routed(b, Owner(y, path).value, path);
    }
  }

  lemma SameDeclares(a: seq<Option<Template>>, b: seq<Option<Template>>, code: string, p: string)
    requires forall t :: Some(t) in a <==> Some(t) in b
    ensures Declares(a, code, p) ==> Declares(b, code, p)
  {
    if Declares(a, code, p) {
      var i :| 0 <= i < |a| && a[i].Some? && a[i].value.code == code && p in a[i].value.prefixes;
      assert Some(a[i].value) in a;
      assert Some(a[i].value) in b;
      var j :| 0 <= j < |b| && b[j] == Some(a[i].value);
      assert b[j].value.code == code;
    }
  }

  /** Without the partition the longest matching prefix still wins, so only
      templates that declare that very prefix can be confused. */
  lemma LongestWins(templates: seq<Option<Template>>, x: seq<Entry>, y: seq<Entry>, path: string)
    requires Arranged(x, Collected(templates)) && Arranged(y, Collected(templates)) && CanonPath(path) != ""
    ensures var (e, f) := (FirstMatch(x, CanonPath(path)), FirstMatch(y, CanonPath(path)));
            && (e.None? <==> f.None?)
            && (e.Some? && f.Some? ==> e.value.prefix == f.value.prefix)
  {
    var canon := CanonPath(path);
    FirstMatchExactly(x, canon);
    FirstMatchExactly(y, canon);
    if FirstMatch(x, canon).Some? {
      var e := FirstMatch(x, canon).value;
      assert e in y;
      var f := FirstMatch(y, canon).value;
      UnderBoth(canon, e.prefix, f.prefix);
    }
  }

  /** The matcher and the prefix test agree on a prefix for every path exactly
      when, trimmed of white space, it is only slashes or does not start with one. */
  lemma AgreeExactly(p: string)
    ensures (forall path :: CanonPrefix(p) != "" && Under(CanonPath(path), CanonPrefix(p)) <==> PrefixMatches(p, path))
            <==> CanonPrefix(p) == "" || TrimSpace(p)[..1] != "/"
  {
    var s := TrimSpace(p);
    TrimmedAll(s);
    if s == [] || s[0] != '/' {
      assert TrimLeft(s, IsSlash) == s;
    } else if CanonPrefix(p) != "" {
      var path := Spelled(CanonPrefix(p));
      SpelledPath(CanonPrefix(p));
      CanonHead(s);
      assert CanonPath(path)[0] != '/';
      assert Normalise(p) != "" ==> Normalise(p)[0] == '/';
      assert !PrefixMatches(p, path);
    }
  }

  lemma {:induction false} CanonHead(s: string)
    ensures var t := TrimRight(TrimLeft(s, IsSlash), IsSlash); t != "" ==> t[0] != '/'
  {
    if s != [] && s[0] == '/' {
      CanonHead(s[1..]);
    }
  }

  predicate AllSlashes(s: string) {
    forall k :: 0 <= k < |s| ==> s[k] == '/'
  }

  lemma TrimRightEmpty(s: string)
    ensures TrimRight(s, IsSlash) == "" <==> AllSlashes(s)
  {
    var t := TrimRight(s, IsSlash);
    if t != "" {
      assert s[|t| - 1] == t[|t| - 1];
    }
  }

  lemma {:induction false} TrimLeftAll(s: string)
    ensures AllSlashes(TrimLeft(s, IsSlash)) <==> AllSlashes(s)
  {
    if s != [] && s[0] == '/' {
      TrimLeftAll(s[1..]);
      assert s == [s[0]] + s[1..];
      assert AllSlashes(s[1..]) ==> AllSlashes(s);
      assert AllSlashes(s) ==> AllSlashes(s[1..]);
    }
  }

  /** Trimming both ends leaves nothing exactly when trimming the right does. */
  lemma TrimmedAll(s: string)
    ensures TrimRight(TrimLeft(s, IsSlash), IsSlash) == "" <==> TrimRight(s, IsSlash) == ""
  {
    TrimLeftAll(s);
    TrimRightEmpty(s);
    TrimRightEmpty(TrimLeft(s, IsSlash));
  }

  /** A prefix that starts with a slash keeps it when normalised. */
  lemma LeadingSlashKept(p: string)
    requires "/" <= TrimSpace(p) && Normalise(p) != ""
    ensures Normalise(p)[0] == '/'
  {
  }

  /** Such a prefix is matched by different paths on the two sides: under the
      prefix test only by paths that spell its slash out, with one more before it;
      in the matcher by none of those. */
  lemma LeadingSlashDisagrees(p: string, path: string)
    requires "/" <= TrimSpace(p)
    ensures PrefixMatches(p, path) ==> "//" <= TrimSpace(path)
    ensures !(PrefixMatches(p, path) && CanonPrefix(p) != "" && Under(CanonPath(path), CanonPrefix(p)))
  {
    CanonHead(TrimSpace(p));
    if PrefixMatches(p, path) {
      LeadingSlashKept(p);
      assert CanonPath(path)[0] == '/';
    }
  }

  /** The prefix "/live" and the path "//live". */
  lemma LeadingSlashExample()
    ensures PrefixMatches("/live", "//live") && !PrefixMatches("/live", "/live")
    ensures CanonPrefix("/live") == "live" && Under(CanonPath("/live"), "live") && !Under(CanonPath("//live"), "live")
  {
    TrimSpaceKeeps("/live");
    TrimSpaceKeeps("//live");
    assert TrimLeft("live", IsSlash) == "live";
    assert "/live"[1..] == "live" && "//live"[1..] == "/live";
    assert Normalise("/live") == "/live";
  }
}
