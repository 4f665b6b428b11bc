/**
 Ownership of annotations on objects that other controllers annotate as well:
 applyManagedAnnotations keeps, in one annotation, the list of keys it set.
 */
module Annotations {
  import opened Sorting
  import opened Text

  const BOOKKEEPING: string := "dns.packet.fail/managed-annotations"

  type Map = map<string, string>

  // ---------- the list of keys ----------

  lemma {:induction false} HasLeast(s: set<string>)
    requires s != {}
    ensures exists x :: x in s && forall y :: y in s && y != x ==> Less(x, y)
  {
    var z :| z in s;
    var rest := s - {z};
    if rest == {} {
      assert s == {z};
    } else {
      HasLeast(rest);
      var x :| x in rest && forall y :: y in rest && y != x ==> Less(x, y);
      LeastOfMore(rest, x, z);
      assert s == rest + {z};
    }
  }

  /** With one more element the least is the old one or the new one. */
  lemma LeastOfMore(rest: set<string>, x: string, z: string)
    requires x in rest && z !in rest && forall y :: y in rest && y != x ==> Less(x, y)
    ensures var least := if Less(z, x) then z else x;
      least in rest + {z} && forall y :: y in rest + {z} && y != least ==> Less(least, y)
  {
    LessTotal(x, z);
    if Less(z, x) {
      forall y | y in rest && y != x ensures Less(z, y) {
        LessTransitive(z, x, y);
      }
    }
  }

  /** The elements of a set in increasing order. */
  ghost function Sorted(s: set<string>): (ks: seq<string>)
    ensures StrictlySorted(ks, Less) && (forall x :: x in ks <==> x in s)
    decreases |s|
  {
    if s == {} then []
    else
      var x := Least(s);
      var rest := Sorted(s - {x});
      SortedCons(x, rest);
      [x] + rest
  }

  ghost function Least(s: set<string>): (x: string)
    requires s != {}
    ensures x in s && forall y :: y in s && y != x ==> Less(x, y)
  {
    HasLeast(s);
    var x :| x in s && forall y :: y in s && y != x ==> Less(x, y);
    x
  }

  lemma SortedCons(x: string, rest: seq<string>)
    requires StrictlySorted(rest, Less) && forall y :: y in rest ==> Less(x, y)
    ensures StrictlySorted([x] + rest, Less)
  {
  }

  /** slices.Sorted over a set of keys that comes in no particular order. */
  method SortKeys(s: set<string>) returns (ks: seq<string>)
    ensures ks == Sorted(s)
  {
    ks := [];
    var todo := s;
    LessIsStrict();
    while todo != {}
      invariant todo <= s && StrictlySorted(ks, Less)
      invariant forall x :: x in ks <==> x in s - todo
      decreases todo
    {
      var x :| x in todo;
      forall i | 0 <= i < |ks| ensures Less(ks[i], x) || Less(x, ks[i]) {
        assert ks[i] in ks;
        LessTotal(ks[i], x);
      }
      InsertSorted(ks, x, Less);
      ks := Insert(ks, x, Less);
      todo := todo - {x};
    }
    StrictlySortedUnique(ks, Sorted(s), Less);
  }

  ghost function Book(desired: Map): string {
    Join(Sorted(desired.Keys), ',')
  }

  /** Keys the operator can be asked for: not empty, no comma, not the bookkeeping key. */
  predicate Plain(keys: set<string>, book: string) {
    forall k :: k in keys ==> k != "" && Without(k, ',') && k != book
  }

  /** The keys a bookkeeping annotation lists. */
  function Listed(a: Map, book: string): set<string> {
    if book in a && a[book] != "" then set k | k in Split(a[book], ',') else {}
  }

  /** What is written is what is read back. */
  lemma ListedBook(a: Map, desired: Map, book: string)
    requires Plain(desired.Keys, book)
    requires if desired == map[] then book !in a else book in a && a[book] == Book(desired)
    ensures Listed(a, book) == desired.Keys
  {
    var ks := Sorted(desired.Keys);
    if desired != map[] {
      var k :| k in desired;
      assert k in ks;
      forall i | 0 <= i < |ks| ensures Without(ks[i], ',') && ks[i] != "" {
        assert ks[i] in ks;
      }
      SplitJoin(ks, ',');
      assert Split("", ',') == [""];
      assert a[book] != "";
    }
  }

  // ---------- applying ----------

  function BookFor(desired: Map, book: string, text: string): Map {
    if desired == map[] then map[] else map[book := text]
  }

  /** Drop some keys, write the desired ones, and keep the books. */
  function Written(a: Map, drop: set<string>, desired: Map, book: string, text: string): Map {
    (a - drop - {book}) + desired + BookFor(desired, book, text)
  }

  /** The annotations after an apply. */
  ghost function Applied(a: Map, desired: Map, book: string): Map {
    Written(a, Listed(a, book) - desired.Keys, desired, book, Book(desired))
  }

  /** Anything with annotations; nil and an empty map are the same to every reader. */
  class Object {
    var annotations: Map

    constructor (annotations: Map)
      ensures this.annotations == annotations
    {
      this.annotations := annotations;
    }

    method ApplyManagedAnnotations(desired: Map)
      modifies this
      ensures annotations == Applied(old(annotations), desired, BOOKKEEPING)
    {
      var a := DropStale(annotations, desired, BOOKKEEPING);
      annotations := WriteDesired(a, desired, BOOKKEEPING);
    }
  }

  /** Remove the keys listed by the previous apply that are not desired any more. */
  method DropStale(annotations: Map, desired: Map, book: string) returns (a: Map)
    ensures a == annotations - (Listed(annotations, book) - desired.Keys)
  {
    a := annotations;
    if book in a && a[book] != "" {
      var previous := Split(a[book], ',');
      ghost var drop: set<string> := {};
      for i := 0 to |previous|
        invariant drop == (set k | k in previous[..i]) - desired.Keys
        invariant a == annotations - drop
      {
        assert previous[..i + 1] == previous[..i] + [previous[i]];
        if previous[i] !in desired {
          a := a - {previous[i]};
          drop := drop + {previous[i]};
        }
      }
      assert previous[..|previous|] == previous;
    }
  }

  method WriteDesired(annotations: Map, desired: Map, book: string) returns (a: Map)
    ensures a == annotations - {book} + desired + BookFor(desired, book, Book(desired))
  {
    a := annotations - {book};
    a := a + desired;
    if desired != map[] {
      var keys := SortKeys(desired.Keys);
      a := a[book := Join(keys, ',')];
    }
  }

  // ---------- refinement of two separate layers ----------

  /** The ideal object: what others wrote, and what the operator was last asked for. */
  datatype Layers = Layers(foreign: Map, managed: Map)

  ghost function Flat(l: Layers, book: string): Map {
    l.foreign + (l.managed + BookFor(l.managed, book, Book(l.managed)))
  }

  datatype Step = Apply(desired: Map) | Put(key: string, value: string) | Remove(key: string)

  ghost function Do(a: Map, s: Step, book: string): Map {
    match s
    case Apply(d) => Applied(a, d, book)
    case Put(k, v) => a[k := v]
    case Remove(k) => a - {k}
  }

  function DoLayers(l: Layers, s: Step): Layers {
    match s
    case Apply(d) => l.(managed := d)
    case Put(k, v) => l.(foreign := l.foreign[k := v])
    case Remove(k) => l.(foreign := l.foreign - {k})
  }

  /** The operator is asked for keys of ours only; everyone else writes other keys. */
  predicate Fair(s: Step, ours: set<string>, book: string) {
    match s
    case Apply(d) => d.Keys <= ours
    case Put(k, _) => k !in ours && k != book
    case Remove(k) => k !in ours && k != book
  }

  predicate Separate(l: Layers, ours: set<string>, book: string) {
    && Plain(ours, book) && l.managed.Keys <= ours
    && l.foreign.Keys !! ours && book !in l.foreign
  }

  /** The map algebra of an apply, whatever the texts. */
  lemma WrittenOver(foreign: Map, managed: Map, d: Map, book: string, before: string, text: string)
    requires book !in foreign && book !in managed && book !in d
    requires foreign.Keys !! managed.Keys && foreign.Keys !! d.Keys
    ensures Written(foreign + (managed + BookFor(managed, book, before)), managed.Keys - d.Keys, d, book, text)
      == foreign + (d + BookFor(d, book, text))
  {
    var a := foreign + (managed + BookFor(managed, book, before));
    var kept := a - (managed.Keys - d.Keys) - {book};
    assert kept + d == foreign + d;
  }

  lemma ApplyOnLayers(l: Layers, d: Map, ours: set<string>, book: string)
    requires Separate(l, ours, book) && d.Keys <= ours
    ensures Applied(Flat(l, book), d, book) == Flat(l.(managed := d), book)
  {
    ListedBook(Flat(l, book), l.managed, book);
    WrittenOver(l.foreign, l.managed, d, book, Book(l.managed), Book(d));
  }

  lemma PutOver(foreign: Map, top: Map, k: string, v: string)
    requires k !in top
    ensures (foreign + top)[k := v] == foreign[k := v] + top
  {
  }

  lemma RemoveOver(foreign: Map, top: Map, k: string)
    requires k !in top
    ensures (foreign + top) - {k} == (foreign - {k}) + top
  {
  }

  lemma StepRefines(l: Layers, s: Step, ours: set<string>, book: string)
    requires Separate(l, ours, book) && Fair(s, ours, book)
    ensures Do(Flat(l, book), s, book) == Flat(DoLayers(l, s), book) && Separate(DoLayers(l, s), ours, book)
  {
    match s
    case Apply(d) => ApplyOnLayers(l, d, ours, book);
    case Put(k, v) => PutOver(l.foreign, l.managed + BookFor(l.managed, book, Book(l.managed)), k, v);
    case Remove(k) => RemoveOver(l.foreign, l.managed + BookFor(l.managed, book, Book(l.managed)), k);
  }

  ghost function RunOf(a: Map, steps: seq<Step>, book: string): Map {
    if steps == [] then a else Do(RunOf(a, steps[..|steps| - 1], book), steps[|steps| - 1], book)
  }

  function LayersAfter(l: Layers, steps: seq<Step>): Layers {
    if steps == [] then l else DoLayers(LayersAfter(l, steps[..|steps| - 1]), steps[|steps| - 1])
  }

  /**
   Over any interleaving of applies with foreign writes, one flat map with a
   bookkeeping key behaves as two separate layers.
   */
  lemma {:induction false} RunRefines(l: Layers, steps: seq<Step>, ours: set<string>, book: string)
    requires Separate(l, ours, book)
    requires forall i :: 0 <= i < |steps| ==> Fair(steps[i], ours, book)
    ensures RunOf(Flat(l, book), steps, book) == Flat(LayersAfter(l, steps), book)
    ensures Separate(LayersAfter(l, steps), ours, book)
    decreases |steps|
  {
    if steps != [] {
      var m := |steps| - 1;
      RunRefines(l, steps[..m], ours, book);
      StepRefines(LayersAfter(l, steps[..m]), steps[m], ours, book);
    }
  }

  /** Only foreign writes change the foreign layer. */
  function ForeignAfter(foreign: Map, steps: seq<Step>): Map {
    if steps == [] then foreign
    else
      var before := ForeignAfter(foreign, steps[..|steps| - 1]);
      match steps[|steps| - 1]
      case Apply(_) => before
      case Put(k, v) => before[k := v]
      case Remove(k) => before - {k}
  }

  lemma {:induction false} ForeignLayer(l: Layers, steps: seq<Step>)
    ensures LayersAfter(l, steps).foreign == ForeignAfter(l.foreign, steps)
  {
    if steps != [] {
      ForeignLayer(l, steps[..|steps| - 1]);
    }
  }

  /**
   After every apply of every run that starts without managed keys: the managed
   keys are the latest desired map, exactly, and every foreign key is as its
   owner left it.
   */
  lemma OwnershipHolds(start: Map, steps: seq<Step>, desired: Map, ours: set<string>, book: string)
    requires Plain(ours, book) && start.Keys !! ours && book !in start && desired.Keys <= ours
    requires forall i :: 0 <= i < |steps| ==> Fair(steps[i], ours, book)
    ensures var a := Applied(RunOf(start, steps, book), desired, book);
      && (forall k :: k in ours ==> (k in a <==> k in desired) && (k in a ==> a[k] == desired[k]))
      && (forall k :: k !in ours && k != book ==>
            var f := ForeignAfter(start, steps); (k in a <==> k in f) && (k in a ==> a[k] == f[k]))
      && (book in a <==> desired != map[])
      && (book in a ==> Keeps(a[book], desired.Keys))
  {
    var l := Layers(start, map[]);
    assert Flat(l, book) == start;
    RunRefines(l, steps, ours, book);
    ForeignLayer(l, steps);
    ApplyOnLayers(LayersAfter(l, steps), desired, ours, book);
    if desired != map[] {
      BookKeeps(desired, book);
    }
  }

  /** The text lists these keys, in increasing order, with commas between them. */
  ghost predicate Keeps(text: string, keys: set<string>) {
    var parts := Split(text, ',');
    StrictlySorted(parts, Less) && forall k :: k in parts <==> k in keys
  }

  lemma BookKeeps(desired: Map, book: string)
    requires desired != map[] && Plain(desired.Keys, book)
    ensures Keeps(Book(desired), desired.Keys)
  {
    var ks := Sorted(desired.Keys);
    var k :| k in desired;
    assert k in ks;
    forall i | 0 <= i < |ks| ensures Without(ks[i], ',') {
      assert ks[i] in ks;
    }
    SplitJoin(ks, ',');
  }

  /** Applying again changes nothing, whatever the object carried before. */
  lemma ApplyTwice(a: Map, desired: Map, book: string)
    requires Plain(desired.Keys, book)
    ensures Applied(Applied(a, desired, book), desired, book) == Applied(a, desired, book)
  {
    ListedBook(Applied(a, desired, book), desired, book);
  }
}
