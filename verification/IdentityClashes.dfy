/** When two entities end with one id: the exact condition on the two versions, and its two kinds of
    example. */
module IdentityClashes {
  import opened Atlas
  import opened Identity
  import opened Ambiguities
  import opened Rescan
  import opened MatchLaws
  import opened IdentityLaws

  /** The declaration `id` is taken for the prior one `p` of its file. */
  ghost predicate Inherits(prevs: seq<Symbol>, nexts: seq<Symbol>, id: Id, p: Symbol) {
    exists file, j :: InheritsAt(prevs, nexts, file, j, id, p)
  }

  ghost predicate InheritsAt(prevs: seq<Symbol>, nexts: seq<Symbol>, file: string, j: int, id: Id, p: Symbol) {
    && 0 <= j < |InFile(nexts, file)| && InFile(nexts, file)[j].id == id
    && Heir(InFile(prevs, file), InFile(nexts, file), j) == Some(p)
  }

  /** Some entity that is taken for no prior declaration bears the id of one that another is taken
      for. */
  ghost predicate Clashes(prevs: seq<Symbol>, entities: seq<Entity>) {
    exists a, p, e :: ClashAt(prevs, entities, a, p, e)
  }

  ghost predicate ClashAt(prevs: seq<Symbol>, entities: seq<Entity>, a: Id, p: Symbol, e: Entity) {
    && e in entities && Inherits(prevs, Symbols(entities), a, p) && e.id == p.id && e.id != a
    && forall q :: !Inherits(prevs, Symbols(entities), e.id, q)
  }

  lemma {:induction false} SymbolsUnderDistinct(entities: seq<Entity>, files: set<Id>)
    requires DistinctIds(entities)
    ensures DistinctSymbols(SymbolsUnder(entities, files))
  {
    if entities != [] {
      var n := |entities| - 1;
      SymbolsUnderDistinct(entities[..n], files);
      SymbolsAreEntities(entities[..n], files);
      var before := SymbolsUnder(entities[..n], files);
      assert forall e :: e in entities[..n] ==> e.id != entities[n].id;
      assert forall s :: s in before ==> s.id != entities[n].id;
      assert forall i :: 0 <= i < |before| ==> before[i] in before;
    }
  }

  lemma HeirIsPrior(prevs: seq<Symbol>, nexts: seq<Symbol>, j: nat)
    requires DistinctSymbols(prevs) && j < |nexts| && Heir(prevs, nexts, j).Some?
    ensures Heir(prevs, nexts, j).value in prevs
  {
    hide Heir, Left, DistinctSymbols;
    if Left(prevs, nexts, j) {
      var i := HeirOfLeft(prevs, nexts, j);
    } else {
      var i := HeirOfNamed(prevs, nexts, j);
    }
  }

  /** Inheriting decides what becomes of an id. */
  lemma InheritedId(remap: map<Id, Id>, prevs: seq<Symbol>, nexts: seq<Symbol>, id: Id, p: Symbol)
    requires FileByFile(remap, prevs, nexts) && DistinctSymbols(prevs) && DistinctSymbols(nexts)
    requires Inherits(prevs, nexts, id, p)
    ensures p in prevs && Relabel(remap, id) == p.id && (id in remap <==> p.id != id)
  {
    hide InFile, MatchOf, Heir, DistinctSymbols;
    var file, j :| InheritsAt(prevs, nexts, file, j, id, p);
    InFileMembers(prevs, file);
    InFileMembers(nexts, file);
    var s := InFile(nexts, file)[j];
    assert s in InFile(nexts, file);
    HeirIsMatch(InFile(prevs, file), InFile(nexts, file), j);
    HeirIsPrior(InFile(prevs, file), InFile(nexts, file), j);
    assert CarriedAs(remap, FileRemap(prevs, nexts, s.file), s.id);
  }

  lemma CarriedInherits(remap: map<Id, Id>, prevs: seq<Symbol>, nexts: seq<Symbol>, id: Id) returns (p: Symbol)
    requires FileByFile(remap, prevs, nexts) && DistinctSymbols(prevs) && DistinctSymbols(nexts) && id in remap
    ensures Inherits(prevs, nexts, id, p)
  {
    hide InFile, MatchOf, Heir, DistinctSymbols;
    var s :| s in nexts && s.id == id;
    InFileMembers(prevs, s.file);
    InFileMembers(nexts, s.file);
    var j :| 0 <= j < |InFile(nexts, s.file)| && InFile(nexts, s.file)[j] == s;
    HeirIsMatch(InFile(prevs, s.file), InFile(nexts, s.file), j);
    assert CarriedAs(remap, FileRemap(prevs, nexts, s.file), s.id);
    p := Heir(InFile(prevs, s.file), InFile(nexts, s.file), j).value;
    assert InheritsAt(prevs, nexts, s.file, j, id, p);
  }

  /** No prior declaration is inherited twice. */
  lemma OneInheritor(prevs: seq<Symbol>, nexts: seq<Symbol>, a: Id, b: Id, p: Symbol)
    requires DistinctSymbols(prevs) && DistinctSymbols(nexts)
    requires Inherits(prevs, nexts, a, p) && Inherits(prevs, nexts, b, p)
    ensures a == b
  {
    hide InFile, Heir, DistinctSymbols;
    var f, j :| InheritsAt(prevs, nexts, f, j, a, p);
    var g, k :| InheritsAt(prevs, nexts, g, k, b, p);
    InFileMembers(prevs, f);
    InFileMembers(prevs, g);
    InFileMembers(nexts, f);
    HeirIsPrior(InFile(prevs, f), InFile(nexts, f), j);
    HeirIsPrior(InFile(prevs, g), InFile(nexts, g), k);
    SameHeirSamePlace(InFile(prevs, f), InFile(nexts, f), j, k);
  }

  /** The exact condition for the final ids to be distinct, told before anything is matched. */
  lemma DistinctIffNoClash(remap: map<Id, Id>, prevs: seq<Symbol>, entities: seq<Entity>)
    requires FileByFile(remap, prevs, Symbols(entities)) && DistinctSymbols(prevs) && DistinctIds(entities)
    ensures DistinctIds(RelabelAll(remap, entities)) <==> !Clashes(prevs, entities)
    ensures Collides(remap, entities) <==> Clashes(prevs, entities)
  {
    hide Inherits, FileByFile, DistinctSymbols, DistinctIds, Symbols;
    var nexts := Symbols(entities);
    DistinctDeclarations(entities);
    DistinctIffNoCollision(remap, prevs, entities);
    if Collides(remap, entities) {
      var e :| e in entities && e.id !in remap && e.id in remap.Values;
      var a :| a in remap && remap[a] == e.id;
      var p := CarriedInherits(remap, prevs, nexts, a);
      InheritedId(remap, prevs, nexts, a, p);
      forall q ensures !Inherits(prevs, nexts, e.id, q) {
        if Inherits(prevs, nexts, e.id, q) {
          InheritedId(remap, prevs, nexts, e.id, q);
          SymbolsById(prevs, p, q);
          OneInheritor(prevs, nexts, a, e.id, p);
        }
      }
      assert ClashAt(prevs, entities, a, p, e);
    }
    if Clashes(prevs, entities) {
      var a, p, e :| ClashAt(prevs, entities, a, p, e);
      InheritedId(remap, prevs, nexts, a, p);
      if e.id in remap {
        var q := CarriedInherits(remap, prevs, nexts, e.id);
      }
      assert remap[a] in remap.Values;
    }
  }

  lemma DistinctDeclarations(entities: seq<Entity>)
    requires DistinctIds(entities)
    ensures DistinctSymbols(Symbols(entities))
  {
    SymbolsUnderDistinct(entities, FileIds(entities));
  }

  // ---- A declaration that changes kind ----

  lemma NobodySame(s: seq<Symbol>, n: Symbol)
    requires forall x :: x in s ==> !Same(x, n)
    ensures SameAs(s, n) == []
  {
    SameAsMembers(s, n);
    hide SameAs;
    NoMembers(SameAs(s, n));
  }

  lemma ChangedKind(p: Symbol, t: Symbol, n: Symbol)
    requires p.kind != t.kind && p.name != n.name && Alike(p, n) && p.id != n.id && t.id != n.id
    ensures MatchOf([p], [t, n]).remap.Keys <= {t.id, n.id}
    ensures n.id in MatchOf([p], [t, n]).remap && MatchOf([p], [t, n]).remap[n.id] == p.id
    ensures t.id !in MatchOf([p], [t, n]).remap
  {
    var nexts := [t, n];
    assert [p][1..] == [] && nexts[1..] == [n] && [n][1..] == [] && nexts[..0] == [] && nexts[..1] == [t] && [t][1..] == [];
    NobodySame(nexts, p);
    NobodySame([p], t);
    NobodySame([p], n);
    hide SameAs;
    assert Left([p], nexts, 0) && Left([p], nexts, 1) && Free([p], nexts, 0);
    assert FreeAlike([p], nexts, n, 0) == [] && FreeAlike([p], nexts, t, 0) == [];
    assert FreeAlike([p], nexts, n, 1) == [p] && FreeAlike([p], nexts, t, 1) == [];
    assert !Preceded([p], nexts, n, 1);
    HeirIsMatch([p], nexts, 0);
    HeirIsMatch([p], nexts, 1);
    MatchIsSound([p], nexts);
  }

  /** A function becomes a type of the same name on the same line, so its fresh id is the prior one;
      a new function of the same structure is taken for it by rename and given that id too. */
  lemma KindChangeCollides(file: Entity, earlier: Entity, changed: Entity, added: Entity)
    requires file.kind == File && file.parent != Some(file.id)
    requires earlier.parent == changed.parent == added.parent == Some(file.id)
    requires earlier.path == changed.path == added.path
    requires file.id != earlier.id && file.id != added.id && added.id != earlier.id && changed.id == earlier.id
    requires earlier.kind == added.kind == Function && changed.kind == Type && earlier.name != added.name
    requires earlier.fingerprint == added.fingerprint
    ensures DistinctIds([file, changed, added])
    ensures var remap := MatchOf(Symbols([file, earlier]), Symbols([file, changed, added])).remap;
            && remap == map[added.id := earlier.id]
            && !DistinctIds(RelabelAll(remap, [file, changed, added]))
  {
    DeclarationsOf(file, earlier, changed, added);
    ChangedKind(SymbolOf(earlier), SymbolOf(changed), SymbolOf(added));
    hide MatchOf;
    var remap := MatchOf(Symbols([file, earlier]), Symbols([file, changed, added])).remap;
    assert remap.Keys == {added.id};
    var next := [file, changed, added];
    RelabelledId(remap, next, 1);
    RelabelledId(remap, next, 2);
    var r := RelabelAll(remap, next);
    hide RelabelEntity;
    assert r[1].id == r[2].id;
  }

  lemma DeclarationsOf(file: Entity, earlier: Entity, changed: Entity, added: Entity)
    requires file.kind == File && file.parent != Some(file.id)
    requires earlier.parent == changed.parent == added.parent == Some(file.id)
    requires earlier.kind == added.kind == Function && changed.kind == Type
    ensures Symbols([file, earlier]) == [SymbolOf(earlier)]
    ensures Symbols([file, changed, added]) == [SymbolOf(changed), SymbolOf(added)]
  {
    assert FileIds([file, earlier]) == {file.id} && FileIds([file, changed, added]) == {file.id};
    assert [file, earlier][..1] == [file] && [file][..0] == [];
    assert [file, changed, added][..2] == [file, changed] && [file, changed][..1] == [file];
    assert SymbolsUnder([file], {file.id}) == [];
    assert SymbolsUnder([file, changed], {file.id}) == [SymbolOf(changed)];
  }
}
