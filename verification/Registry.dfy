/**
 * The registry of event definitions and its memoized digest
 * (packages/schema/src/Registry.ts). The hash is a parameter, and so is the
 * rendering of a version number; a definition carries its schema already
 * rendered as JSON text.
 */
module Registry {
  import opened Wrappers
  import Ulid

  datatype Def = Def(kind: string, version: Option<int>, ast: string)

  /** The functions the registry is built from: SHA-256 in hex, and a number as text. */
  datatype Codec = Codec(hex: string -> string, show: int -> string)

  function VersionOf(def: Def): int {
    if def.version.Some? then def.version.value else 1
  }

  function DigestText(c: Codec, def: Def): string {
    def.kind + "|" + c.show(VersionOf(def)) + "|" + def.ast
  }

  function DigestOne(c: Codec, def: Def): string {
    c.hex(DigestText(c, def))
  }

  /** No separator inside, so that the parts of a digested text can be told apart. */
  ghost predicate BarFree(s: string) {
    '|' !in s
  }

  /** No version is the first one. */
  predicate SameVersion(v: Option<int>, w: Option<int>) {
    v == w || (v.None? && w == Some(1)) || (v == Some(1) && w.None?)
  }

  lemma FirstBar(a: string, x: string)
    requires BarFree(a)
    ensures (a + "|" + x)[|a|] == '|' && forall k :: 0 <= k < |a| ==> (a + "|" + x)[k] != '|'
  {
  }

  lemma CutAtBar(a: string, x: string, b: string, y: string)
    requires BarFree(a) && BarFree(b) && a + "|" + x == b + "|" + y
    ensures a == b && x == y
  {
    var s, t := a + "|" + x, b + "|" + y;
    FirstBar(a, x);
    FirstBar(b, y);
    assert |a| == |b|;
    assert a == s[..|a|] && b == t[..|b|] && x == s[|a| + 1..] && y == t[|b| + 1..];
  }

  /**
   * A definition's digest stands for its kind, its version, where none is the first, and its schema:
   * short of a hash collision and of bars in kinds, two digests agree exactly when all three do.
   */
  lemma DigestOneDecides(c: Codec, a: Def, b: Def)
    requires BarFree(a.kind) && BarFree(b.kind)
    requires c.hex(DigestText(c, a)) == c.hex(DigestText(c, b)) ==> DigestText(c, a) == DigestText(c, b)
    requires c.show(VersionOf(a)) == c.show(VersionOf(b)) ==> VersionOf(a) == VersionOf(b)
    requires BarFree(c.show(VersionOf(a))) && BarFree(c.show(VersionOf(b)))
    ensures DigestOne(c, a) == DigestOne(c, b) <==>
              a.kind == b.kind && SameVersion(a.version, b.version) && a.ast == b.ast
  {
    var v, w := c.show(VersionOf(a)), c.show(VersionOf(b));
    assert a.kind + "|" + v + "|" + a.ast == a.kind + "|" + (v + "|" + a.ast);
    assert b.kind + "|" + w + "|" + b.ast == b.kind + "|" + (w + "|" + b.ast);
    if DigestOne(c, a) == DigestOne(c, b) {
      CutAtBar(a.kind, v + "|" + a.ast, b.kind, w + "|" + b.ast);
      CutAtBar(v, a.ast, w, b.ast);
    }
  }

  /** With bars in kinds two different definitions can share a digest, whatever the hash. */
  lemma BarsCollide(c: Codec, kind: string, ast: string, m: int, n: int)
    ensures var a := Def(kind + "|" + c.show(m), Some(n), ast);
            var b := Def(kind, Some(m), c.show(n) + "|" + ast);
            a != b && DigestOne(c, a) == DigestOne(c, b)
  {
    var a := Def(kind + "|" + c.show(m), Some(n), ast);
    var b := Def(kind, Some(m), c.show(n) + "|" + ast);
    assert |a.kind| > |b.kind|;
    assert a.kind + "|" + c.show(n) + "|" + a.ast == b.kind + "|" + c.show(m) + "|" + b.ast;
  }

  function DigestEach(c: Codec, defs: seq<Def>): (ds: seq<string>)
    ensures |ds| == |defs|
    ensures forall i | 0 <= i < |defs| :: ds[i] == DigestOne(c, defs[i])
  {
    seq(|defs|, i requires 0 <= i < |defs| => DigestOne(c, defs[i]))
  }

  // ----- Sorting -----------------------------------------------------------------

  predicate Ascending(s: seq<string>) {
    forall i, j | 0 <= i < j < |s| :: !Ulid.LexLess(s[j], s[i])
  }

  function Insert(x: string, s: seq<string>): (r: seq<string>)
    ensures multiset(r) == multiset(s) + multiset{x}
  {
    if s == [] then [x]
    else if Ulid.LexLess(s[0], x) then
      assert s == [s[0]] + s[1..];
      [s[0]] + Insert(x, s[1..])
    else [x] + s
  }

  function Sort(s: seq<string>): (r: seq<string>)
    ensures multiset(r) == multiset(s)
  {
    if s == [] then []
    else
      assert s == [s[0]] + s[1..];
      Insert(s[0], Sort(s[1..]))
  }

  lemma {:induction false} LexLessTrichotomy(a: string, b: string)
    ensures !(Ulid.LexLess(a, b) && Ulid.LexLess(b, a))
    ensures Ulid.LexLess(a, b) || Ulid.LexLess(b, a) || a == b
    ensures !Ulid.LexLess(a, a)
  {
    if a != [] {
      LexLessTrichotomy(a[1..], if b == [] then [] else b[1..]);
      if b != [] && a[0] == b[0] && a[1..] == b[1..] {
        assert a == [a[0]] + a[1..] && b == [b[0]] + b[1..];
      }
    }
  }

  lemma {:induction false} LexLessTransitive(a: string, b: string, c: string)
    requires !Ulid.LexLess(b, a) && !Ulid.LexLess(c, b)
    ensures !Ulid.LexLess(c, a)
  {
    if Ulid.LexLess(c, a) && b != [] && c != [] && a[0] == b[0] == c[0] {
      LexLessTransitive(a[1..], b[1..], c[1..]);
    }
  }

  lemma {:induction false} InsertAscends(x: string, s: seq<string>)
    requires Ascending(s)
    ensures Ascending(Insert(x, s))
  {
    var r := Insert(x, s);
    if s != [] {
      if Ulid.LexLess(s[0], x) {
        InsertAscends(x, s[1..]);
        forall j | 0 < j < |r| ensures !Ulid.LexLess(r[j], s[0]) {
          assert r[j] in multiset(Insert(x, s[1..]));
          LexLessTrichotomy(s[0], x);
        }
      } else {
        forall j | 0 <= j < |s| ensures !Ulid.LexLess(s[j], x) {
          LexLessTrichotomy(s[0], s[0]);
          LexLessTransitive(x, s[0], s[j]);
        }
      }
    }
  }

  lemma {:induction false} SortAscends(s: seq<string>)
    ensures Ascending(Sort(s))
  {
    if s != [] {
      SortAscends(s[1..]);
      InsertAscends(s[0], Sort(s[1..]));
    }
  }

  lemma LeastComesFirst(a: seq<string>, x: string)
    requires Ascending(a) && x in a
    ensures !Ulid.LexLess(x, a[0])
  {
    var i :| 0 <= i < |a| && a[i] == x;
    LexLessTrichotomy(x, a[0]);
  }

  lemma TailMultiset<T>(s: seq<T>)
    requires s != []
    ensures multiset(s[1..]) == multiset(s) - multiset{s[0]}
    ensures s == [s[0]] + s[1..]
  {
    assert s == [s[0]] + s[1..];
  }

  /** A collection has one ascending order. */
  lemma {:induction false} AscendingIsUnique(a: seq<string>, b: seq<string>)
    requires Ascending(a) && Ascending(b)
    requires multiset(a) == multiset(b)
    ensures a == b
  {
    assert |a| == |multiset(a)| == |multiset(b)| == |b|;
    if a != [] {
      assert a[0] in multiset(b) && b[0] in multiset(a);
      LeastComesFirst(a, b[0]);
      LeastComesFirst(b, a[0]);
      LexLessTrichotomy(a[0], b[0]);
      TailMultiset(a);
      TailMultiset(b);
      AscendingIsUnique(a[1..], b[1..]);
    }
  }

  // ----- The digest --------------------------------------------------------------

  function Join(parts: seq<string>): string {
    if parts == [] then ""
    else if |parts| == 1 then parts[0]
    else parts[0] + "|" + Join(parts[1..])
  }

  /** The text that is hashed: every definition's digest, sorted and joined. */
  function Manifest(c: Codec, defs: seq<Def>): string {
    Join(Sort(DigestEach(c, defs)))
  }

  function ComputeDigest(c: Codec, defs: seq<Def>): string {
    c.hex(Manifest(c, defs))
  }

  predicate Distinct(defs: seq<Def>) {
    forall i, j | 0 <= i < j < |defs| :: defs[i].kind != defs[j].kind
  }

  /** The registry's map, forgetting the order its entries were inserted in. */
  function MapOf(defs: seq<Def>): (m: map<string, Def>)
    ensures forall def | def in defs :: def.kind in m
    ensures forall k | k in m :: m[k] in defs && m[k].kind == k
  {
    if defs == [] then map[]
    else MapOf(defs[..|defs| - 1])[defs[|defs| - 1].kind := defs[|defs| - 1]]
  }

  lemma {:induction false} MapOfDistinct(defs: seq<Def>)
    requires Distinct(defs)
    ensures forall def | def in defs :: MapOf(defs)[def.kind] == def
  {
    if defs != [] {
      MapOfDistinct(defs[..|defs| - 1]);
    }
  }

  lemma DistinctOnce(defs: seq<Def>, def: Def)
    requires Distinct(defs)
    ensures multiset(defs)[def] == if def in defs then 1 else 0
  {
    if def in defs {
      var i :| 0 <= i < |defs| && defs[i] == def;
      assert defs == defs[..i] + [def] + defs[i + 1..];
      assert def !in defs[..i] && def !in defs[i + 1..];
      assert multiset(defs) == multiset(defs[..i]) + multiset{def} + multiset(defs[i + 1..]);
    }
  }

  /** Registrations that build the same map hold the same definitions. */
  lemma SameMapSameDefs(a: seq<Def>, b: seq<Def>)
    requires Distinct(a) && Distinct(b)
    ensures MapOf(a) == MapOf(b) <==> multiset(a) == multiset(b)
  {
    MapOfDistinct(a);
    MapOfDistinct(b);
    if MapOf(a) == MapOf(b) {
      forall def ensures multiset(a)[def] == multiset(b)[def] {
        DistinctOnce(a, def);
        DistinctOnce(b, def);
        if def in a { assert MapOf(b)[def.kind] == def; }
        if def in b { assert MapOf(a)[def.kind] == def; }
      }
      assert multiset(a) == multiset(b);
    }
    if multiset(a) == multiset(b) {
      forall def ensures def in a <==> def in b {
        assert def in a <==> def in multiset(a);
        assert def in b <==> def in multiset(b);
      }
      forall k ensures k in MapOf(a) <==> k in MapOf(b) {
      }
      assert MapOf(a) == MapOf(b);
    }
  }

  lemma DigestEachSplits(c: Codec, defs: seq<Def>, j: nat)
    requires j < |defs|
    ensures multiset(DigestEach(c, defs)) ==
            multiset(DigestEach(c, defs[..j] + defs[j + 1..])) + multiset{DigestOne(c, defs[j])}
  {
    var d := DigestEach(c, defs);
    assert d == d[..j] + [d[j]] + d[j + 1..];
    assert DigestEach(c, defs[..j] + defs[j + 1..]) == d[..j] + d[j + 1..];
  }

  lemma Without<T>(s: seq<T>, j: nat)
    requires j < |s|
    ensures multiset(s[..j] + s[j + 1..]) == multiset(s) - multiset{s[j]}
  {
    assert s == s[..j] + [s[j]] + s[j + 1..];
  }

  /** Where the head of `a` is in a permutation of it, and that the rest permutes the rest. */
  lemma FindHead<T>(a: seq<T>, b: seq<T>) returns (j: nat)
    requires a != [] && multiset(a) == multiset(b)
    ensures j < |b| && b[j] == a[0]
    ensures multiset(a[..0] + a[1..]) == multiset(b[..j] + b[j + 1..])
  {
    assert a[0] in multiset(b);
    j :| 0 <= j < |b| && b[j] == a[0];
    Without(a, 0);
    Without(b, j);
  }

  lemma {:induction false} DigestEachPermutes(c: Codec, a: seq<Def>, b: seq<Def>)
    requires multiset(a) == multiset(b)
    ensures multiset(DigestEach(c, a)) == multiset(DigestEach(c, b))
    decreases |a|
  {
    if a == [] {
      assert |multiset(b)| == |b|;
      assert DigestEach(c, a) == DigestEach(c, b);
    } else {
      var j := FindHead(a, b);
      var a', b' := a[..0] + a[1..], b[..j] + b[j + 1..];
      DigestEachPermutes(c, a', b');
      DigestEachSplits(c, a, 0);
      DigestEachSplits(c, b, j);
    }
  }

  /** The digest depends on the registered map only, whatever order built it. */
  lemma DigestIgnoresOrder(c: Codec, a: seq<Def>, b: seq<Def>)
    requires Distinct(a) && Distinct(b) && MapOf(a) == MapOf(b)
    ensures ComputeDigest(c, a) == ComputeDigest(c, b)
  {
    SameMapSameDefs(a, b);
    DigestEachPermutes(c, a, b);
    SortAscends(DigestEach(c, a));
    SortAscends(DigestEach(c, b));
    AscendingIsUnique(Sort(DigestEach(c, a)), Sort(DigestEach(c, b)));
  }

  /** As hexadecimal output is: not empty, and free of the separator. */
  predicate Clean(s: string) {
    s != "" && '|' !in s
  }

  lemma JoinHead(parts: seq<string>)
    requires parts != [] && Clean(parts[0])
    ensures |parts[0]| <= |Join(parts)| && Join(parts)[..|parts[0]|] == parts[0]
    ensures |parts| == 1 <==> |parts[0]| == |Join(parts)|
    ensures |parts| > 1 ==> Join(parts)[|parts[0]|] == '|' && Join(parts)[|parts[0]| + 1..] == Join(parts[1..])
  {
  }

  lemma {:induction false} JoinInjective(a: seq<string>, b: seq<string>)
    requires forall s | s in a + b :: Clean(s)
    requires Join(a) == Join(b)
    ensures a == b
  {
    if a != [] && b != [] {
      assert a[0] in a + b && b[0] in a + b;
      JoinHead(a);
      JoinHead(b);
      SameHead(a, b);
      if |a| > 1 {
        assert forall s | s in a[1..] + b[1..] :: s in a + b;
        JoinInjective(a[1..], b[1..]);
      }
      assert a == [a[0]] + a[1..] && b == [b[0]] + b[1..];
    } else if a != [] {
      assert a[0] in a + b;
      JoinHead(a);
    } else if b != [] {
      assert b[0] in a + b;
      JoinHead(b);
    }
  }

  lemma SameHead(a: seq<string>, b: seq<string>)
    requires a != [] && b != [] && Clean(a[0]) && Clean(b[0])
    requires Join(a) == Join(b)
    ensures a[0] == b[0]
  {
    JoinHead(a);
    JoinHead(b);
  }

  /** Sorted digests are clean where the definitions' digests are. */
  lemma SortedClean(c: Codec, defs: seq<Def>)
    requires forall def | def in defs :: Clean(DigestOne(c, def))
    ensures forall s | s in Sort(DigestEach(c, defs)) :: Clean(s)
  {
    forall s | s in Sort(DigestEach(c, defs)) ensures Clean(s) {
      assert s in multiset(Sort(DigestEach(c, defs)));
      assert s in DigestEach(c, defs);
      var i :| 0 <= i < |defs| && DigestEach(c, defs)[i] == s;
      assert defs[i] in defs;
    }
  }

  lemma SortedSame(a: seq<string>, b: seq<string>)
    ensures Sort(a) == Sort(b) <==> multiset(a) == multiset(b)
  {
    if multiset(a) == multiset(b) {
      SortAscends(a);
      SortAscends(b);
      AscendingIsUnique(Sort(a), Sort(b));
    }
  }

  /** Short of a hash collision, equal digests mean equal collections of definition digests. */
  lemma DigestDecides(c: Codec, a: seq<Def>, b: seq<Def>)
    requires forall def | def in a :: Clean(DigestOne(c, def))
    requires forall def | def in b :: Clean(DigestOne(c, def))
    requires c.hex(Manifest(c, a)) == c.hex(Manifest(c, b)) ==> Manifest(c, a) == Manifest(c, b)
    ensures ComputeDigest(c, a) == ComputeDigest(c, b) <==> multiset(DigestEach(c, a)) == multiset(DigestEach(c, b))
  {
    SortedSame(DigestEach(c, a), DigestEach(c, b));
    if ComputeDigest(c, a) == ComputeDigest(c, b) {
      SortedClean(c, a);
      SortedClean(c, b);
      JoinInjective(Sort(DigestEach(c, a)), Sort(DigestEach(c, b)));
    }
  }

  // ----- Registration ------------------------------------------------------------

  predicate Has(store: seq<Def>, kind: string) {
    exists def :: def in store && def.kind == kind
  }

  /** What the swallowing mode forgives: the same definition again. */
  predicate Same(c: Codec, store: seq<Def>, def: Def) {
    exists known :: known in store && known.kind == def.kind && DigestOne(c, known) == DigestOne(c, def)
  }

  /** The store after one definition of a batch, unless it is refused. */
  function Accepted(c: Codec, store: seq<Def>, def: Def, swallow: bool): Option<seq<Def>> {
    if !Has(store, def.kind) then Some(store + [def])
    else if swallow && Same(c, store, def) then Some(store)
    else None
  }

  datatype Outcome = Outcome(store: seq<Def>, refused: Option<nat>)

  /** The batch, one definition after the other; `refused` is the index it stopped at. */
  function Registered(c: Codec, store: seq<Def>, defs: seq<Def>, swallow: bool): Outcome {
    if defs == [] then Outcome(store, None)
    else
      var n := |defs| - 1;
      var before := Registered(c, store, defs[..n], swallow);
      if before.refused.Some? then before
      else match Accepted(c, before.store, defs[n], swallow)
        case Some(after) => Outcome(after, None)
        case None => Outcome(before.store, Some(n))
  }

  /** A batch only adds, keeps one definition a kind, and stops where it says, with no rollback. */
  lemma {:induction false} RegisteredKeeps(c: Codec, store: seq<Def>, defs: seq<Def>, swallow: bool)
    requires Distinct(store)
    ensures var r := Registered(c, store, defs, swallow);
      && store <= r.store && Distinct(r.store)
      && (forall def | def in r.store :: def in store || def in defs)
      && (r.refused.None? ==> forall def | def in defs :: Has(r.store, def.kind) && (swallow ==> Same(c, r.store, def)))
      && (r.refused.None? && !swallow ==> r.store == store + defs)
      && (r.refused.Some? ==> StoppedAt(c, store, defs, swallow, r))
  {
    if defs != [] {
      var n := |defs| - 1;
      RegisteredKeeps(c, store, defs[..n], swallow);
      var before, r := Registered(c, store, defs[..n], swallow), Registered(c, store, defs, swallow);
      assert defs == defs[..n] + [defs[n]];
      if before.refused.Some? {
        assert defs[..n][..before.refused.value] == defs[..before.refused.value];
      } else if !Has(before.store, defs[n].kind) {
        assert defs[n] in r.store;
        forall def | def in defs ensures Has(r.store, def.kind) && (swallow ==> Same(c, r.store, def)) {
          if def != defs[n] {
            assert def in defs[..n];
          }
        }
      }
    }
  }

  /** All before index `refused` were accepted and kept; the one there clashes. */
  predicate StoppedAt(c: Codec, store: seq<Def>, defs: seq<Def>, swallow: bool, r: Outcome)
    requires r.refused.Some?
  {
    var n := r.refused.value;
    && n < |defs|
    && Registered(c, store, defs[..n], swallow) == Outcome(r.store, None)
    && Has(r.store, defs[n].kind)
    && (swallow ==> !Same(c, r.store, defs[n]))
  }

  /** Definitions of one kind all have one digest. */
  predicate Agree(c: Codec, defs: seq<Def>) {
    forall a, b | a in defs && b in defs && a.kind == b.kind :: DigestOne(c, a) == DigestOne(c, b)
  }

  /** A plain batch is accepted exactly when no kind occurs twice. */
  lemma PlainBatch(c: Codec, store: seq<Def>, defs: seq<Def>)
    requires Distinct(store)
    ensures Registered(c, store, defs, false).refused.None? <==> Distinct(store + defs)
  {
    RegisteredKeeps(c, store, defs, false);
    var r := Registered(c, store, defs, false);
    if r.refused.Some? {
      var n := r.refused.value;
      RegisteredKeeps(c, store, defs[..n], false);
      assert r.store == store + defs[..n];
      var known :| known in r.store && known.kind == defs[n].kind;
      var i :| 0 <= i < |r.store| && r.store[i] == known;
      assert (store + defs)[i] == known && (store + defs)[|store| + n] == defs[n];
    }
  }

  /** A forgiving batch is accepted exactly when no kind has two digests. */
  lemma ForgivingBatch(c: Codec, store: seq<Def>, defs: seq<Def>)
    requires Distinct(store)
    ensures Registered(c, store, defs, true).refused.None? <==> Agree(c, store + defs)
  {
    RegisteredKeeps(c, store, defs, true);
    var r := Registered(c, store, defs, true);
    if r.refused.Some? {
      var n := r.refused.value;
      var known :| known in r.store && known.kind == defs[n].kind;
      assert known in store + defs && defs[n] in store + defs;
    } else {
      forall a, b | a in store + defs && b in store + defs && a.kind == b.kind
        ensures DigestOne(c, a) == DigestOne(c, b)
      {
        KnownDigest(c, store, r.store, defs, a);
        KnownDigest(c, store, r.store, defs, b);
      }
    }
  }

  lemma KnownDigest(c: Codec, store: seq<Def>, after: seq<Def>, defs: seq<Def>, a: Def)
    requires Distinct(after) && store <= after
    requires forall def | def in defs :: Same(c, after, def)
    requires a in store + defs
    ensures a.kind in MapOf(after) && DigestOne(c, a) == DigestOne(c, MapOf(after)[a.kind])
  {
    MapOfDistinct(after);
    if a in defs {
      var known :| known in after && known.kind == a.kind && DigestOne(c, known) == DigestOne(c, a);
      assert MapOf(after)[known.kind] == known;
    } else {
      assert a in after;
    }
  }

  /** Registering the same batch again in the forgiving mode changes nothing. */
  lemma {:induction false} ForgivingTwice(c: Codec, store: seq<Def>, defs: seq<Def>, m: nat)
    requires Distinct(store) && m <= |defs|
    requires Registered(c, store, defs, true).refused.None?
    ensures var after := Registered(c, store, defs, true).store;
      Registered(c, after, defs[..m], true) == Outcome(after, None)
  {
    if m > 0 {
      ForgivingTwice(c, store, defs, m - 1);
      RegisteredKeeps(c, store, defs, true);
      assert defs[..m][..m - 1] == defs[..m - 1];
      assert defs[m - 1] in defs;
    }
  }

  /** The one definition of a kind decides whether another is the same. */
  lemma SameAsKnown(c: Codec, store: seq<Def>, def: Def)
    requires Distinct(store)
    ensures Has(store, def.kind) <==> def.kind in MapOf(store)
    ensures Same(c, store, def) <==>
            def.kind in MapOf(store) && DigestOne(c, MapOf(store)[def.kind]) == DigestOne(c, def)
  {
    MapOfDistinct(store);
    if Same(c, store, def) {
      var known :| known in store && known.kind == def.kind && DigestOne(c, known) == DigestOne(c, def);
      assert MapOf(store)[known.kind] == known;
    }
  }

  /** One more definition of a batch. */
  lemma RegisteredOneMore(c: Codec, store: seq<Def>, defs: seq<Def>, swallow: bool, i: nat,
                          now: seq<Def>, next: Option<seq<Def>>)
    requires i < |defs| && Registered(c, store, defs[..i], swallow) == Outcome(now, None)
    requires Accepted(c, now, defs[i], swallow) == next
    ensures Registered(c, store, defs[..i + 1], swallow) ==
            if next.Some? then Outcome(next.value, None) else Outcome(now, Some(i))
  {
    assert defs[..i + 1][..i] == defs[..i];
  }

  lemma KnownAt(store: seq<Def>, i: nat)
    requires Distinct(store) && i < |store|
    ensures store[i].kind in MapOf(store) && MapOf(store)[store[i].kind] == store[i]
  {
    MapOfDistinct(store);
    assert store[i] in store;
  }

  lemma KnownNowhere(store: seq<Def>, kind: string)
    requires forall j | 0 <= j < |store| :: store[j].kind != kind
    ensures kind !in MapOf(store)
  {
  }

  class EventRegistry {
    const codec: Codec
    var store: seq<Def>
    var cachedDigest: Option<string>

    /** The memoized digest is always what a fresh computation would give. */
    ghost predicate Valid()
      reads this
    {
      && Distinct(store)
      && (cachedDigest.Some? ==> cachedDigest.value == ComputeDigest(codec, store))
    }

    constructor (codec: Codec)
      ensures Valid() && this.codec == codec && store == []
    {
      this.codec := codec;
      store, cachedDigest := [], None;
    }

    method Find(kind: string) returns (known: Option<Def>)
      requires Valid()
      ensures known == if kind in MapOf(store) then Some(MapOf(store)[kind]) else None
    {
      var i := 0;
      while i < |store|
        invariant 0 <= i <= |store|
        invariant forall j | 0 <= j < i :: store[j].kind != kind
      {
        if store[i].kind == kind {
          KnownAt(store, i);
          return Some(store[i]);
        }
        i := i + 1;
      }
      KnownNowhere(store, kind);
      known := None;
    }

    method Register(def: Def) returns (accepted: bool)
      requires Valid()
      modifies this
      ensures Valid()
      ensures accepted <==> !Has(old(store), def.kind)
      ensures store == if accepted then old(store) + [def] else old(store)
    {
      var known := Find(def.kind);
      if known.Some? {
        accepted := false;
      } else {
        store, cachedDigest := store + [def], None;
        accepted := true;
      }
    }

    /** One definition of a batch: a duplicate may be forgiven. */
    method RegisterOrForgive(def: Def, swallowDuplicates: bool) returns (accepted: bool)
      requires Valid()
      modifies this
      ensures Valid()
      ensures Accepted(codec, old(store), def, swallowDuplicates) == if accepted then Some(store) else None
      ensures !accepted ==> store == old(store)
    {
      accepted := Register(def);
      if !accepted && swallowDuplicates {
        var known := Find(def.kind);
        SameAsKnown(codec, store, def);
        accepted := known.Some? && DigestOne(codec, known.value) == DigestOne(codec, def);
      }
    }

    method RegisterAll(defs: seq<Def>, swallowDuplicates: bool) returns (refused: Option<nat>)
      requires Valid()
      modifies this
      ensures Valid()
      ensures Outcome(store, refused) == Registered(codec, old(store), defs, swallowDuplicates)
    {
      ghost var initial := store;
      var i := 0;
      refused := None;
      while i < |defs| && refused.None?
        invariant 0 <= i <= |defs|
        invariant Valid()
        invariant Registered(codec, initial, defs[..i], swallowDuplicates) == Outcome(store, refused)
      {
        ghost var now := store;
        var accepted := RegisterOrForgive(defs[i], swallowDuplicates);
        RegisteredOneMore(codec, initial, defs, swallowDuplicates, i, now, if accepted then Some(store) else None);
        if !accepted { refused := Some(i); }
        i := i + 1;
      }
      RegisteredAll(codec, initial, defs, swallowDuplicates, i);
    }

    method Digest() returns (d: string)
      requires Valid()
      modifies this`cachedDigest
      ensures Valid()
      ensures d == ComputeDigest(codec, store)
    {
      match cachedDigest
      case Some(known) => d := known;
      case None =>
        d := ComputeDigest(codec, store);
        cachedDigest := Some(d);
    }
  }

  /** Once a definition is refused, or all are accepted, the rest of the batch changes nothing. */
  lemma {:induction false} RegisteredAll(c: Codec, store: seq<Def>, defs: seq<Def>, swallow: bool, i: nat)
    requires i <= |defs|
    requires i < |defs| ==> Registered(c, store, defs[..i], swallow).refused.Some?
    ensures Registered(c, store, defs, swallow) == Registered(c, store, defs[..i], swallow)
    decreases |defs|
  {
    if i < |defs| {
      var shorter := defs[..|defs| - 1];
      assert shorter[..i] == defs[..i];
      RegisteredAll(c, store, shorter, swallow, i);
    } else {
      assert defs[..i] == defs;
    }
  }
}
