/** Reusing parses across indexes (`incremental.rs`, and `enrich_snapshot_cached` of `enrich.rs`):
    what is served from the cache is what a fresh parse gives. */
module ParseCaches {
  import opened Atlas

  /** A file of the scanned snapshot: its path and its content fingerprint. */
  datatype SourceFile = SourceFile(path: string, fingerprint: string)

  /** One state of the project: the files the scanner lists, and what reading a path gives. */
  datatype Tree = Tree(files: seq<SourceFile>, disk: map<string, string>)

  /** The grammar of a path (from its extension), parsing, and the content hash. */
  datatype World<!P> = World(
    grammar: string -> Option<string>, parse: (string, string) -> Option<P>, hash: string -> string)

  /** The cache's fields. */
  datatype Held<P> = Held(entries: map<string, P>, hits: int, misses: int)

  // ---- What the cache does ----

  /** `parse_one`. */
  function ParseOne<P>(w: World<P>, disk: map<string, string>, path: string): Option<P> {
    match w.grammar(path)
    case None => None
    case Some(g) => if path in disk then w.parse(disk[path], g) else None
  }

  /** `parse_cached`: a path without a grammar never touches the cache, and an empty fingerprint
      is neither looked up nor recorded. */
  function Served<P>(w: World<P>, disk: map<string, string>, f: SourceFile, c: Held<P>): Option<P> {
    if w.grammar(f.path).None? then None
    else if f.fingerprint != "" && f.fingerprint in c.entries then Some(c.entries[f.fingerprint])
    else ParseOne(w, disk, f.path)
  }

  function AfterServing<P>(w: World<P>, disk: map<string, string>, f: SourceFile, c: Held<P>): Held<P> {
    if w.grammar(f.path).None? || f.fingerprint == "" then c
    else if f.fingerprint in c.entries then c.(hits := c.hits + 1)
    else
      match ParseOne(w, disk, f.path)
      case None => c.(misses := c.misses + 1)
      case Some(p) => c.(misses := c.misses + 1, entries := c.entries[f.fingerprint := p])
  }

  function Live(files: seq<SourceFile>): set<string> {
    set f | f in files :: f.fingerprint
  }

  function Retained<P>(c: Held<P>, live: set<string>): Held<P> {
    c.(entries := map k | k in c.entries && k in live :: c.entries[k])
  }

  /** The cache after the first `k` files of a pass. */
  function After<P>(w: World<P>, t: Tree, c: Held<P>, k: nat): Held<P>
    requires k <= |t.files|
  {
    if k == 0 then Retained(c, Live(t.files)) else AfterServing(w, t.disk, t.files[k - 1], After(w, t, c, k - 1))
  }

  /** The parses one pass assembles, file by file. */
  function Parses<P>(w: World<P>, t: Tree, c: Held<P>, k: nat): (r: seq<Option<P>>)
    requires k <= |t.files|
    ensures |r| == k
  {
    if k == 0 then [] else Parses(w, t, c, k - 1) + [Served(w, t.disk, t.files[k - 1], After(w, t, c, k - 1))]
  }

  /** The parses without any cache. */
  function Fresh<P>(w: World<P>, t: Tree, k: nat): (r: seq<Option<P>>)
    requires k <= |t.files|
    ensures |r| == k
  {
    if k == 0 then [] else Fresh(w, t, k - 1) + [ParseOne(w, t.disk, t.files[k - 1].path)]
  }

  class ParseCache<P(!new)> {
    var entries: map<string, P>
    var hits: int
    var misses: int

    function View(): Held<P>
      reads this
    {
      Held(entries, hits, misses)
    }

    constructor ()
      ensures View() == Held(map[], 0, 0)
    {
      entries, hits, misses := map[], 0, 0;
    }

    method Get(fingerprint: string) returns (parsed: Option<P>)
      modifies `hits, `misses
      ensures fingerprint in entries ==> parsed == Some(entries[fingerprint]) && hits == old(hits) + 1 && misses == old(misses)
      ensures fingerprint !in entries ==> parsed == None && hits == old(hits) && misses == old(misses) + 1
    {
      if fingerprint in entries {
        hits := hits + 1;
        parsed := Some(entries[fingerprint]);
      } else {
        misses := misses + 1;
        parsed := None;
      }
    }

    method Insert(fingerprint: string, parsed: P)
      modifies `entries
      ensures entries == old(entries)[fingerprint := parsed]
    {
      entries := entries[fingerprint := parsed];
    }

    method RetainFingerprints(live: set<string>)
      modifies `entries
      ensures View() == Retained(old(View()), live)
    {
      entries := map k | k in entries && k in live :: entries[k];
    }

    method ParseCached(w: World<P>, disk: map<string, string>, f: SourceFile) returns (parsed: Option<P>)
      modifies this
      ensures parsed == Served(w, disk, f, old(View())) && View() == AfterServing(w, disk, f, old(View()))
    {
      if w.grammar(f.path).None? {
        return None;
      }
      if f.fingerprint != "" {
        parsed := Get(f.fingerprint);
        if parsed.Some? {
          return;
        }
      }
      parsed := ParseOne(w, disk, f.path);
      if parsed.Some? && f.fingerprint != "" {
        Insert(f.fingerprint, parsed.value);
      }
    }

    /** The parsing pass of `enrich_snapshot_cached`. */
    method Pass(w: World<P>, t: Tree) returns (parses: seq<Option<P>>)
      modifies this
      ensures parses == Parses(w, t, old(View()), |t.files|)
      ensures View() == After(w, t, old(View()), |t.files|)
    {
      hide Served, AfterServing, Retained;
      RetainFingerprints(Live(t.files));
      parses := [];
      for k := 0 to |t.files|
        invariant View() == After(w, t, old(View()), k)
        invariant parses == Parses(w, t, old(View()), k)
      {
        var parsed := ParseCached(w, t.disk, t.files[k]);
        parses := parses + [parsed];
      }
    }
  }

  // ---- When it is right ----

  /** The listed fingerprints are those of what reading the file gives, as in a tree that stands
      still between scan and parse. */
  ghost predicate Quiet<P>(w: World<P>, t: Tree) {
    forall f :: f in t.files && f.fingerprint != "" ==> f.path in t.disk && w.hash(t.disk[f.path]) == f.fingerprint
  }

  /** Files of one fingerprint share the grammar that `grammarOf` names. */
  ghost predicate OneGrammar<P>(w: World<P>, t: Tree, grammarOf: string -> string) {
    forall f :: f in t.files && w.grammar(f.path).Some? ==> w.grammar(f.path) == Some(grammarOf(f.fingerprint))
  }

  /** Whatever is held under a fingerprint is the parse of the content that has it. */
  ghost predicate Truthful<P>(w: World<P>, c: Held<P>, grammarOf: string -> string) {
    forall k, content :: k in c.entries && w.hash(content) == k ==> w.parse(content, grammarOf(k)) == Some(c.entries[k])
  }

  ghost predicate Injective<P>(w: World<P>) {
    forall a, b :: w.hash(a) == w.hash(b) ==> a == b
  }

  lemma ServedIsFresh<P>(w: World<P>, t: Tree, f: SourceFile, c: Held<P>, grammarOf: string -> string)
    requires Quiet(w, t) && OneGrammar(w, t, grammarOf) && Truthful(w, c, grammarOf) && f in t.files
    ensures Served(w, t.disk, f, c) == ParseOne(w, t.disk, f.path)
  {
  }

  lemma ServingStaysTruthful<P>(w: World<P>, t: Tree, f: SourceFile, c: Held<P>, grammarOf: string -> string)
    requires Injective(w) && Quiet(w, t) && OneGrammar(w, t, grammarOf) && Truthful(w, c, grammarOf) && f in t.files
    ensures Truthful(w, AfterServing(w, t.disk, f, c), grammarOf)
  {
    var d := AfterServing(w, t.disk, f, c);
    forall k, content | k in d.entries && w.hash(content) == k ensures w.parse(content, grammarOf(k)) == Some(d.entries[k]) {
      if k !in c.entries {
        assert w.hash(t.disk[f.path]) == k && content == t.disk[f.path];
      }
    }
  }

  lemma {:induction false} PassIsFresh<P>(w: World<P>, t: Tree, c: Held<P>, k: nat, grammarOf: string -> string)
    requires Injective(w) && Quiet(w, t) && OneGrammar(w, t, grammarOf) && Truthful(w, c, grammarOf) && k <= |t.files|
    ensures Parses(w, t, c, k) == Fresh(w, t, k)
    ensures Truthful(w, After(w, t, c, k), grammarOf)
    ensures After(w, t, c, k).entries.Keys <= Live(t.files)
  {
    if k > 0 {
      hide Served, Injective, Quiet, OneGrammar, Truthful, ParseOne;
      PassIsFresh(w, t, c, k - 1, grammarOf);
      assert t.files[k - 1] in t.files;
      ServedIsFresh(w, t, t.files[k - 1], After(w, t, c, k - 1), grammarOf);
      ServingStaysTruthful(w, t, t.files[k - 1], After(w, t, c, k - 1), grammarOf);
    }
  }

  /** The cache after a sequence of passes over successive states of the project. */
  function AfterAll<P>(w: World<P>, trees: seq<Tree>, c: Held<P>): Held<P> {
    if trees == [] then c
    else
      var last := trees[|trees| - 1];
      After(w, last, AfterAll(w, trees[..|trees| - 1], c), |last.files|)
  }

  /** Over any sequence of edits and indexes sharing one cache, each pass gives what a fresh one
      gives, and ends holding only fingerprints the project still has. */
  lemma {:induction false} EveryPassIsFresh<P>(w: World<P>, trees: seq<Tree>, i: nat, grammarOf: string -> string)
    requires Injective(w) && i < |trees|
    requires forall t :: t in trees ==> Quiet(w, t) && OneGrammar(w, t, grammarOf)
    ensures var before := AfterAll(w, trees[..i], Held(map[], 0, 0));
            && Parses(w, trees[i], before, |trees[i].files|) == Fresh(w, trees[i], |trees[i].files|)
            && After(w, trees[i], before, |trees[i].files|).entries.Keys <= Live(trees[i].files)
  {
    hide Injective, Quiet, OneGrammar, Parses, Fresh, After;
    RunStaysTruthful(w, trees[..i], grammarOf);
    PassIsFresh(w, trees[i], AfterAll(w, trees[..i], Held(map[], 0, 0)), |trees[i].files|, grammarOf);
  }

  lemma {:induction false} RunStaysTruthful<P>(w: World<P>, trees: seq<Tree>, grammarOf: string -> string)
    requires Injective(w) && forall t :: t in trees ==> Quiet(w, t) && OneGrammar(w, t, grammarOf)
    ensures Truthful(w, AfterAll(w, trees, Held(map[], 0, 0)), grammarOf)
    decreases |trees|
  {
    hide Injective, Quiet, OneGrammar, Parses, Fresh, After;
    if trees != [] {
      var n := |trees| - 1;
      RunStaysTruthful(w, trees[..n], grammarOf);
      PassIsFresh(w, trees[n], AfterAll(w, trees[..n], Held(map[], 0, 0)), |trees[n].files|, grammarOf);
    }
  }

  /** Losing any entries between passes changes no result. */
  lemma EvictionChangesNothing<P>(w: World<P>, t: Tree, c: Held<P>, kept: set<string>, grammarOf: string -> string)
    requires Injective(w) && Quiet(w, t) && OneGrammar(w, t, grammarOf) && Truthful(w, c, grammarOf)
    ensures Parses(w, t, Retained(c, kept), |t.files|) == Parses(w, t, c, |t.files|)
  {
    assert Truthful(w, Retained(c, kept), grammarOf);
    hide Injective, Quiet, OneGrammar, Truthful, Retained, Parses, Fresh;
    PassIsFresh(w, t, c, |t.files|, grammarOf);
    PassIsFresh(w, t, Retained(c, kept), |t.files|, grammarOf);
  }

  // ---- Exactly when it is right ----

  /** The file takes part in caching: it has a grammar and a fingerprint. */
  predicate Cached<P>(w: World<P>, f: SourceFile) {
    w.grammar(f.path).Some? && f.fingerprint != ""
  }

  /** What is held beforehand under a file's fingerprint is that file's own parse. */
  ghost predicate HeldAgrees<P>(w: World<P>, t: Tree, c: Held<P>) {
    forall j :: 0 <= j < |t.files| && Cached(w, t.files[j]) && t.files[j].fingerprint in c.entries ==>
      ParseOne(w, t.disk, t.files[j].path) == Some(c.entries[t.files[j].fingerprint])
  }

  /** Every file parses like any earlier one of its fingerprint that parses at all. */
  ghost predicate TwinsAgree<P>(w: World<P>, t: Tree) {
    forall i, j :: 0 <= i < j < |t.files| ==> TwinAgrees(w, t, t.files[i], t.files[j])
  }

  ghost predicate TwinAgrees<P>(w: World<P>, t: Tree, f: SourceFile, g: SourceFile) {
    Cached(w, f) && Cached(w, g) && f.fingerprint == g.fingerprint && ParseOne(w, t.disk, f.path).Some? ==>
      ParseOne(w, t.disk, g.path) == ParseOne(w, t.disk, f.path)
  }

  lemma {:induction false} ParsesAt<P>(w: World<P>, t: Tree, c: Held<P>, k: nat, j: nat)
    requires j < k <= |t.files|
    ensures Parses(w, t, c, k)[j] == Served(w, t.disk, t.files[j], After(w, t, c, j))
    ensures Fresh(w, t, k)[j] == ParseOne(w, t.disk, t.files[j].path)
    decreases k
  {
    hide Served, After, ParseOne;
    if j < k - 1 {
      ParsesAt(w, t, c, k - 1, j);
    }
  }

  /** An entry once held stays for the rest of the pass. */
  lemma {:induction false} EntriesStay<P>(w: World<P>, t: Tree, c: Held<P>, j: nat, k: nat)
    requires j <= k <= |t.files|
    ensures var a, b := After(w, t, c, j).entries, After(w, t, c, k).entries;
            forall fp :: fp in a ==> fp in b && b[fp] == a[fp]
    decreases k
  {
    hide ParseOne;
    if j < k {
      EntriesStay(w, t, c, j, k - 1);
    }
  }

  /** Whatever is held was held before, or is the parse of an earlier file of that fingerprint. */
  lemma {:induction false} EntriesCome<P>(w: World<P>, t: Tree, c: Held<P>, k: nat, fp: string)
    requires k <= |t.files| && fp in After(w, t, c, k).entries
    ensures (fp in c.entries && After(w, t, c, k).entries[fp] == c.entries[fp])
            || exists i :: 0 <= i < k && Cached(w, t.files[i]) && t.files[i].fingerprint == fp
                 && ParseOne(w, t.disk, t.files[i].path) == Some(After(w, t, c, k).entries[fp])
    decreases k
  {
    hide ParseOne;
    if k > 0 && fp in After(w, t, c, k - 1).entries {
      EntriesCome(w, t, c, k - 1, fp);
      EntriesStay(w, t, c, k - 1, k);
    }
  }

  lemma FreshWhenAgreed<P>(w: World<P>, t: Tree, c: Held<P>, j: nat)
    requires j < |t.files| && HeldAgrees(w, t, c) && TwinsAgree(w, t)
    ensures Served(w, t.disk, t.files[j], After(w, t, c, j)) == ParseOne(w, t.disk, t.files[j].path)
  {
    hide ParseOne, After;
    var f := t.files[j];
    if Cached(w, f) && f.fingerprint in After(w, t, c, j).entries {
      EntriesCome(w, t, c, j, f.fingerprint);
      var v := After(w, t, c, j).entries[f.fingerprint];
      if i :| 0 <= i < j && Cached(w, t.files[i]) && t.files[i].fingerprint == f.fingerprint
              && ParseOne(w, t.disk, t.files[i].path) == Some(v) {
        assert TwinAgrees(w, t, t.files[i], f);
      }
    } else if w.grammar(f.path).None? {
      NoGrammar(w, t, f);
    }
  }

  lemma NoGrammar<P>(w: World<P>, t: Tree, f: SourceFile)
    requires w.grammar(f.path).None?
    ensures ParseOne(w, t.disk, f.path) == None
  {
  }

  lemma HeldFromTheStart<P>(w: World<P>, t: Tree, c: Held<P>, j: nat)
    requires j < |t.files| && t.files[j].fingerprint in c.entries
    ensures var fp, held := t.files[j].fingerprint, After(w, t, c, j).entries;
            fp in held && held[fp] == c.entries[fp]
  {
    EntriesStay(w, t, c, 0, j);
    assert t.files[j] in t.files;
  }

  /** A file served its own parse leaves exactly that parse under its fingerprint. */
  lemma ParsedIsHeld<P>(w: World<P>, t: Tree, c: Held<P>, i: nat, j: nat)
    requires i < j < |t.files| && Cached(w, t.files[i]) && ParseOne(w, t.disk, t.files[i].path).Some?
    requires Served(w, t.disk, t.files[i], After(w, t, c, i)) == ParseOne(w, t.disk, t.files[i].path)
    ensures var fp, held := t.files[i].fingerprint, After(w, t, c, j).entries;
            fp in held && Some(held[fp]) == ParseOne(w, t.disk, t.files[i].path)
  {
    hide ParseOne;
    EntriesStay(w, t, c, i + 1, j);
    assert After(w, t, c, i + 1) == AfterServing(w, t.disk, t.files[i], After(w, t, c, i));
  }

  /** The exact condition, for every tree, world and cache: a cached pass is a fresh one if and only
      if what is held agrees with the files that claim it and files of one fingerprint parse alike. */
  lemma CachedIsFreshIff<P>(w: World<P>, t: Tree, c: Held<P>)
    ensures Parses(w, t, c, |t.files|) == Fresh(w, t, |t.files|) <==> HeldAgrees(w, t, c) && TwinsAgree(w, t)
  {
    hide ParseOne, After, Parses, Fresh, Served, TwinAgrees;
    var n := |t.files|;
    if HeldAgrees(w, t, c) && TwinsAgree(w, t) {
      forall j | 0 <= j < n ensures Parses(w, t, c, n)[j] == Fresh(w, t, n)[j] {
        ParsesAt(w, t, c, n, j);
        FreshWhenAgreed(w, t, c, j);
      }
    }
    if Parses(w, t, c, n) == Fresh(w, t, n) {
      forall j | 0 <= j < n
        ensures Served(w, t.disk, t.files[j], After(w, t, c, j)) == ParseOne(w, t.disk, t.files[j].path)
      {
        ParsesAt(w, t, c, n, j);
      }
      AgreedWhenFresh(w, t, c);
    }
  }

  lemma AgreedWhenFresh<P>(w: World<P>, t: Tree, c: Held<P>)
    requires forall j :: 0 <= j < |t.files| ==>
               Served(w, t.disk, t.files[j], After(w, t, c, j)) == ParseOne(w, t.disk, t.files[j].path)
    ensures HeldAgrees(w, t, c) && TwinsAgree(w, t)
  {
    hide ParseOne, After;
    forall j | 0 <= j < |t.files| && Cached(w, t.files[j]) && t.files[j].fingerprint in c.entries
      ensures ParseOne(w, t.disk, t.files[j].path) == Some(c.entries[t.files[j].fingerprint])
    {
      HeldFromTheStart(w, t, c, j);
    }
    forall i, j | 0 <= i < j < |t.files| ensures TwinAgrees(w, t, t.files[i], t.files[j]) {
      if Cached(w, t.files[i]) && ParseOne(w, t.disk, t.files[i].path).Some? {
        ParsedIsHeld(w, t, c, i, j);
      }
    }
  }

  /** From the empty cache only twins matter. */
  lemma TwinsAgreeIff<P>(w: World<P>, t: Tree)
    ensures Parses(w, t, Held(map[], 0, 0), |t.files|) == Fresh(w, t, |t.files|) <==> TwinsAgree(w, t)
  {
    hide Parses, Fresh, TwinsAgree;
    CachedIsFreshIff(w, t, Held(map[], 0, 0));
  }
}
