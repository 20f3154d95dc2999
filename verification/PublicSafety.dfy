/** `sanitize_public_value` of framework/public_safety.py over arbitrary object graphs,
    cyclic ones included. Which keys look secret and which strings look like private paths
    are parameters. */
module PublicSafety {
  import opened Common

  type Id = nat

  datatype Scalar = NoneValue | Bool(b: bool) | Int(n: int) | Finite(r: real) | Text(s: string)

  datatype Value =
    | Plain(scalar: Scalar)
    | NonFinite
    | Binary
    | ExceptionValue
    | PathValue
    | EnumMember(inner: Value)
    | Ref(id: Id)
    | Opaque

  /** A mutable container; a mapping's entries come in iteration order with their keys made
      strings, so a key may occur twice. */
  datatype Container =
    | Mapping(entries: seq<(string, Value)>)
    | Items(values: seq<Value>)
    | Record(entries: seq<(string, Value)>)

  type Heap = map<Id, Container>

  datatype Kind = Redacted | PathMark | ExceptionMark | BinaryMark | ObjectMark | CycleMark | DepthMark | NonFiniteMark

  function MarkerText(k: Kind): string {
    match k
    case Redacted => "<redacted>"
    case PathMark => "<redacted:path>"
    case ExceptionMark => "<redacted:exception>"
    case BinaryMark => "<redacted:binary>"
    case ObjectMark => "<redacted:object>"
    case CycleMark => "<redacted:cycle>"
    case DepthMark => "<redacted:max-depth>"
    case NonFiniteMark => "<redacted:non-finite>"
  }

  /** The immutable result: a mapping has keys, a tuple has none. */
  datatype Tree =
    | Leaf(scalar: Scalar)
    | Marker(kind: Kind)
    | Node(keys: Option<seq<string>>, children: seq<Tree>)

  datatype Rules = Rules(secret: string -> bool, private: string -> bool)

  /** The markers are not themselves private paths. */
  ghost predicate Sane(rules: Rules) {
    forall k :: !rules.private(MarkerText(k))
  }

  // ------------------------------------------------------------------ slots

  /** `safe[key] = value`: a known key keeps its place and takes the new value. */
  function Put<T>(slots: (seq<string>, seq<T>), key: string, value: T): (r: (seq<string>, seq<T>))
    requires |slots.0| == |slots.1|
    ensures |r.0| == |r.1|
  {
    var i := IndexOf(slots.0, key);
    if i < |slots.0| then (slots.0, slots.1[i := value]) else (slots.0 + [key], slots.1 + [value])
  }

  function PutAll(entries: seq<(string, Value)>): (r: (seq<string>, seq<Value>))
    ensures |r.0| == |r.1|
  {
    if entries == [] then ([], [])
    else
      var (key, value) := entries[|entries| - 1];
      Put(PutAll(entries[..|entries| - 1]), key, value)
  }

  /** The value last given to `key`. */
  function LastValue(entries: seq<(string, Value)>, key: string): Option<Value> {
    if entries == [] then None
    else if entries[|entries| - 1].0 == key then Some(entries[|entries| - 1].1)
    else LastValue(entries[..|entries| - 1], key)
  }

  /** The slots are a dictionary of the entries: each key once, with its last value. */
  lemma {:induction false} SlotsAreADictionary(entries: seq<(string, Value)>, key: string)
    ensures Distinct(PutAll(entries).0)
    ensures var i := IndexOf(PutAll(entries).0, key);
            LastValue(entries, key) == if i < |PutAll(entries).0| then Some(PutAll(entries).1[i]) else None
    decreases |entries|
  {
    if entries != [] {
      var init, k := entries[..|entries| - 1], entries[|entries| - 1].0;
      SlotsAreADictionary(init, key);
      SlotsAreADictionary(init, k);
      var keys := PutAll(init).0;
      if IndexOf(keys, k) == |keys| {
        IndexOfAppend(keys, k, key);
      }
    }
  }

  lemma {:induction false} IndexOfAppend(keys: seq<string>, k: string, key: string)
    requires IndexOf(keys, k) == |keys|
    ensures IndexOf(keys + [k], key)
            == if IndexOf(keys, key) < |keys| then IndexOf(keys, key) else if key == k then |keys| else |keys| + 1
    ensures k !in keys
  {
    if keys != [] {
      assert (keys + [k])[1..] == keys[1..] + [k];
      IndexOfAppend(keys[1..], k, key);
    }
  }

  datatype Slots = Slots(keys: Option<seq<string>>, values: seq<Value>)

  function SlotsOf(c: Container): (s: Slots)
    ensures s.keys.Some? ==> |s.keys.value| == |s.values|
  {
    match c
    case Items(values) => Slots(None, values)
    case Mapping(entries) => Slots(Some(PutAll(entries).0), PutAll(entries).1)
    case Record(entries) => Slots(Some(PutAll(entries).0), PutAll(entries).1)
  }

  /** What a container is rendered from: the items of a list in order, without keys; or each
      key of a mapping or a record once, with its last value. */
  lemma SlotsAreTheContents(c: Container, key: string)
    ensures c.Items? <==> SlotsOf(c).keys.None?
    ensures c.Items? ==> SlotsOf(c).values == c.values
    ensures !c.Items? ==>
              var keys := SlotsOf(c).keys.value;
              var i := IndexOf(keys, key);
              && Distinct(keys)
              && LastValue(c.entries, key) == if i < |keys| then Some(SlotsOf(c).values[i]) else None
  {
    if !c.Items? { SlotsAreADictionary(c.entries, key); }
  }

  predicate IsSecretSlot(rules: Rules, keys: Option<seq<string>>, i: nat) {
    keys.Some? && i < |keys.value| && rules.secret(keys.value[i])
  }

  // --------------------------------------------------------------- sanitizing

  function Sanitize(rules: Rules, heap: Heap, v: Value, depth: nat, maxDepth: nat, active: set<Id>): Tree
    requires depth <= maxDepth
    decreases maxDepth - depth, 0, v
  {
    match v
    case Plain(Text(s)) => if rules.private(s) then Marker(PathMark) else Leaf(Text(s))
    case Plain(scalar) => Leaf(scalar)
    case NonFinite => Marker(NonFiniteMark)
    case Binary => Marker(BinaryMark)
    case ExceptionValue => Marker(ExceptionMark)
    case PathValue => Marker(PathMark)
    case EnumMember(inner) => Sanitize(rules, heap, inner, depth, maxDepth, active)
    case Opaque => Marker(ObjectMark)
    case Ref(id) =>
      if id !in heap then Marker(ObjectMark)
      else if depth >= maxDepth then Marker(DepthMark)
      else if id in active then Marker(CycleMark)
      else
        var slots := SlotsOf(heap[id]);
        Node(slots.keys, Children(rules, heap, slots, |slots.values|, depth + 1, maxDepth, active + {id}))
  }

  /** The first `n` children, at `depth`. */
  function Children(rules: Rules, heap: Heap, slots: Slots, n: nat, depth: nat, maxDepth: nat, active: set<Id>)
    : (r: seq<Tree>)
    requires depth <= maxDepth && n <= |slots.values|
    ensures |r| == n
    decreases maxDepth - depth, 1, n
  {
    if n == 0 then []
    else
      Children(rules, heap, slots, n - 1, depth, maxDepth, active)
      + [if IsSecretSlot(rules, slots.keys, n - 1) then Marker(Redacted)
         else Sanitize(rules, heap, slots.values[n - 1], depth, maxDepth, active)]
  }

  lemma {:induction false} ChildAt(rules: Rules, heap: Heap, slots: Slots, n: nat, depth: nat, maxDepth: nat,
                                   active: set<Id>, i: nat)
    requires depth <= maxDepth && i < n <= |slots.values|
    ensures Children(rules, heap, slots, n, depth, maxDepth, active)[i]
            == if IsSecretSlot(rules, slots.keys, i) then Marker(Redacted)
               else Sanitize(rules, heap, slots.values[i], depth, maxDepth, active)
  {
    if i < n - 1 { ChildAt(rules, heap, slots, n - 1, depth, maxDepth, active, i); }
  }

  // ------------------------------------------------------------------- safety

  /** No private string in any value, and nothing but the marker under a secret key. */
  predicate Safe(rules: Rules, t: Tree) {
    match t
    case Leaf(scalar) => scalar.Text? ==> !rules.private(scalar.s)
    case Marker(_) => true
    case Node(keys, children) =>
      && (keys.Some? ==> |keys.value| == |children|)
      && (forall i :: 0 <= i < |children| && IsSecretSlot(rules, keys, i) ==> children[i] == Marker(Redacted))
      && (forall i :: 0 <= i < |children| ==> Safe(rules, children[i]))
  }

  /** No more than `n` containers inside one another. */
  predicate NestedWithin(t: Tree, n: nat) {
    match t
    case Node(_, children) => n > 0 && forall i :: 0 <= i < |children| ==> NestedWithin(children[i], n - 1)
    case _ => true
  }

  /** What SanitizedIsSafe says of one tree. */
  ghost predicate Good(rules: Rules, t: Tree, levels: nat, left: nat) {
    Safe(rules, t) && NestedWithin(t, levels) && NestedWithin(t, left)
  }

  lemma NodeIsGood(rules: Rules, keys: Option<seq<string>>, children: seq<Tree>, levels: nat, left: nat)
    requires keys.Some? ==> |keys.value| == |children|
    requires forall i :: 0 <= i < |children| ==>
               Good(rules, children[i], levels, left)
               && (IsSecretSlot(rules, keys, i) ==> children[i] == Marker(Redacted))
    ensures Good(rules, Node(keys, children), levels + 1, left + 1)
  {
    forall i | 0 <= i < |children|
      ensures Safe(rules, children[i]) && NestedWithin(children[i], levels) && NestedWithin(children[i], left)
    {
      assert Good(rules, children[i], levels, left);
    }
  }

  lemma OneFewer(all: set<Id>, active: set<Id>, id: Id)
    requires id in all && id !in active
    ensures |all - active| == |all - (active + {id})| + 1
  {
    assert all - active == (all - (active + {id})) + {id};
  }

  /** Sanitizing ends on every graph, with a safe tree, nested neither deeper than `maxDepth`
      nor than there are containers off the path to it. */
  lemma {:induction false} SanitizedIsSafe(rules: Rules, heap: Heap, v: Value, depth: nat, maxDepth: nat,
                                           active: set<Id>)
    requires depth <= maxDepth
    ensures Good(rules, Sanitize(rules, heap, v, depth, maxDepth, active), maxDepth - depth, |heap.Keys - active|)
    decreases maxDepth - depth, 0, v
  {
    hide Good, IsSecretSlot, SlotsOf, Sanitize, Children;
    match v
    case EnumMember(inner) =>
      SanitizeEnum(rules, heap, inner, depth, maxDepth, active);
      SanitizedIsSafe(rules, heap, inner, depth, maxDepth, active);
    case Ref(id) =>
      if id !in heap || depth >= maxDepth || id in active {
        UnrenderedIsGood(rules, heap, id, depth, maxDepth, active, |heap.Keys - active|);
      } else {
        SanitizeRef(rules, heap, id, depth, maxDepth, active);
        var slots, inner := SlotsOf(heap[id]), active + {id};
        var children := Children(rules, heap, slots, |slots.values|, depth + 1, maxDepth, inner);
        forall i | 0 <= i < |children|
          ensures Good(rules, children[i], maxDepth - depth - 1, |heap.Keys - inner|)
          ensures IsSecretSlot(rules, slots.keys, i) ==> children[i] == Marker(Redacted)
        {
          ChildAt(rules, heap, slots, |children|, depth + 1, maxDepth, inner, i);
          SanitizedIsSafe(rules, heap, slots.values[i], depth + 1, maxDepth, inner);
          MarkerIsGood(rules, Redacted, maxDepth - depth - 1, |heap.Keys - inner|);
        }
        OneFewer(heap.Keys, active, id);
        SlotsFit(heap[id]);
        NodeIsGood(rules, slots.keys, children, maxDepth - depth - 1, |heap.Keys - inner|);
      }
    case _ => LeafIsGood(rules, heap, v, depth, maxDepth, active, |heap.Keys - active|);
  }

  lemma SanitizeEnum(rules: Rules, heap: Heap, inner: Value, depth: nat, maxDepth: nat, active: set<Id>)
    requires depth <= maxDepth
    ensures Sanitize(rules, heap, EnumMember(inner), depth, maxDepth, active)
            == Sanitize(rules, heap, inner, depth, maxDepth, active)
  {
  }

  lemma SanitizeRef(rules: Rules, heap: Heap, id: Id, depth: nat, maxDepth: nat, active: set<Id>)
    requires id in heap && depth < maxDepth && id !in active
    ensures var slots := SlotsOf(heap[id]);
            Sanitize(rules, heap, Ref(id), depth, maxDepth, active)
            == Node(slots.keys, Children(rules, heap, slots, |slots.values|, depth + 1, maxDepth, active + {id}))
  {
    hide SlotsOf, Children;
  }

  lemma UnrenderedIsGood(rules: Rules, heap: Heap, id: Id, depth: nat, maxDepth: nat, active: set<Id>, left: nat)
    requires depth <= maxDepth && (id !in heap || depth >= maxDepth || id in active)
    ensures Good(rules, Sanitize(rules, heap, Ref(id), depth, maxDepth, active), maxDepth - depth, left)
  {
  }

  lemma LeafIsGood(rules: Rules, heap: Heap, v: Value, depth: nat, maxDepth: nat, active: set<Id>, left: nat)
    requires depth <= maxDepth && !v.Ref? && !v.EnumMember?
    ensures Good(rules, Sanitize(rules, heap, v, depth, maxDepth, active), maxDepth - depth, left)
  {
  }

  lemma MarkerIsGood(rules: Rules, k: Kind, levels: nat, left: nat)
    ensures Good(rules, Marker(k), levels, left)
  {
  }

  lemma SlotsFit(c: Container)
    ensures SlotsOf(c).keys.Some? ==> |SlotsOf(c).keys.value| == |SlotsOf(c).values|
  {
  }

  /** No private string anywhere, keys included. */
  predicate NothingPrivate(rules: Rules, t: Tree) {
    match t
    case Leaf(scalar) => scalar.Text? ==> !rules.private(scalar.s)
    case Marker(kind) => !rules.private(MarkerText(kind))
    case Node(keys, children) =>
      && (keys.Some? ==> forall i :: 0 <= i < |keys.value| ==> !rules.private(keys.value[i]))
      && (forall i :: 0 <= i < |children| ==> NothingPrivate(rules, children[i]))
  }

  /** The rendered container at some position has a private key. */
  ghost predicate PrivateKeyAt(rules: Rules, t: Tree, path: seq<nat>, i: nat) {
    && TreeAt(t, path).Some? && TreeAt(t, path).value.Node? && TreeAt(t, path).value.keys.Some?
    && i < |TreeAt(t, path).value.keys.value|
    && rules.private(TreeAt(t, path).value.keys.value[i])
  }

  lemma {:induction false} PrivateKeysOnly(rules: Rules, t: Tree) returns (path: seq<nat>, i: nat)
    requires Sane(rules) && Safe(rules, t)
    ensures !NothingPrivate(rules, t) ==> PrivateKeyAt(rules, t, path, i)
    decreases t
  {
    path, i := [], 0;
    if t.Node? && !NothingPrivate(rules, t) {
      if k :| t.keys.Some? && 0 <= k < |t.keys.value| && rules.private(t.keys.value[k]) {
        i := k;
      } else {
        var j :| 0 <= j < |t.children| && !NothingPrivate(rules, t.children[j]);
        var rest;
        rest, i := PrivateKeysOnly(rules, t.children[j]);
        path := [j] + rest;
        assert path[1..] == rest;
      }
    }
  }

  lemma {:induction false} PrivateKeyShows(rules: Rules, t: Tree, path: seq<nat>, i: nat)
    requires PrivateKeyAt(rules, t, path, i)
    ensures !NothingPrivate(rules, t)
    decreases |path|
  {
    if path != [] { PrivateKeyShows(rules, t.children[path[0]], path[1..], i); }
  }

  /** A private string is left in a sanitized value if and only if some mapping it renders has
      a key that is one: keys are kept as they are. */
  lemma PrivateKeysAreLeft(rules: Rules, heap: Heap, v: Value, maxDepth: nat)
    requires Sane(rules)
    ensures var t := Sanitize(rules, heap, v, 0, maxDepth, {});
            NothingPrivate(rules, t) <==> forall path, i :: !PrivateKeyAt(rules, t, path, i)
  {
    hide Sanitize, NothingPrivate, PrivateKeyAt, NestedWithin;
    SanitizedIsSafe(rules, heap, v, 0, maxDepth, {});
    var t := Sanitize(rules, heap, v, 0, maxDepth, {});
    var p, k := PrivateKeysOnly(rules, t);
    forall path, i | PrivateKeyAt(rules, t, path, i) ensures !NothingPrivate(rules, t) {
      PrivateKeyShows(rules, t, path, i);
    }
  }

  /** One entry under a private key is enough. */
  lemma PrivateKeySurvives(rules: Rules, key: string, maxDepth: nat)
    requires rules.private(key) && maxDepth > 0
    ensures var t := Sanitize(rules, map[0 := Mapping([(key, Plain(NoneValue))])], Ref(0), 0, maxDepth, {});
            t.Node? && t.keys == Some([key]) && !NothingPrivate(rules, t)
  {
    var entries := [(key, Plain(NoneValue))];
    assert entries[..0] == [];
    assert PutAll(entries).0 == [key];
  }

  // ---------------------------------------------------------- position by position

  /** The container under any number of enum members. */
  function Unwrap(v: Value): Value {
    if v.EnumMember? then Unwrap(v.inner) else v
  }

  /** The value at a path of child positions, None where the graph has none. */
  function ValueAt(heap: Heap, v: Value, path: seq<nat>): Option<Value>
    decreases |path|
  {
    if path == [] then Some(v)
    else
      var c := Unwrap(v);
      if !c.Ref? || c.id !in heap || path[0] >= |SlotsOf(heap[c.id]).values| then None
      else ValueAt(heap, SlotsOf(heap[c.id]).values[path[0]], path[1..])
  }

  /** The containers passed on the way. */
  function Ancestors(heap: Heap, v: Value, path: seq<nat>): set<Id>
    decreases |path|
  {
    if path == [] then {}
    else
      var c := Unwrap(v);
      if !c.Ref? || c.id !in heap || path[0] >= |SlotsOf(heap[c.id]).values| then {}
      else {c.id} + Ancestors(heap, SlotsOf(heap[c.id]).values[path[0]], path[1..])
  }

  /** The last step of the path goes through a secret key. */
  predicate UnderSecret(rules: Rules, heap: Heap, v: Value, path: seq<nat>)
    decreases |path|
  {
    path != []
    && var c := Unwrap(v);
       && c.Ref? && c.id in heap && path[0] < |SlotsOf(heap[c.id]).values|
       && if |path| == 1 then IsSecretSlot(rules, SlotsOf(heap[c.id]).keys, path[0])
          else UnderSecret(rules, heap, SlotsOf(heap[c.id]).values[path[0]], path[1..])
  }

  function TreeAt(t: Tree, path: seq<nat>): Option<Tree> {
    if path == [] then Some(t)
    else if !t.Node? || path[0] >= |t.children| then None
    else TreeAt(t.children[path[0]], path[1..])
  }

  lemma {:induction false} EnumIsTransparent(rules: Rules, heap: Heap, v: Value, depth: nat, maxDepth: nat,
                                             active: set<Id>)
    requires depth <= maxDepth
    ensures Sanitize(rules, heap, v, depth, maxDepth, active)
            == Sanitize(rules, heap, Unwrap(v), depth, maxDepth, active)
    ensures !Unwrap(v).EnumMember?
    decreases v
  {
    if v.EnumMember? { EnumIsTransparent(rules, heap, v.inner, depth, maxDepth, active); }
  }

  /** Every position of the result shows the value at the same position of the graph,
      sanitized at that depth with exactly its ancestors active: whatever was visited
      elsewhere, before or after, makes no difference. */
  lemma {:induction false} PositionRule(rules: Rules, heap: Heap, v: Value, depth: nat, maxDepth: nat, active: set<Id>,
                                        path: seq<nat>)
    requires depth <= maxDepth
    requires TreeAt(Sanitize(rules, heap, v, depth, maxDepth, active), path).Some?
    ensures depth + |path| <= maxDepth && ValueAt(heap, v, path).Some?
    ensures TreeAt(Sanitize(rules, heap, v, depth, maxDepth, active), path).value
            == if UnderSecret(rules, heap, v, path) then Marker(Redacted)
               else Sanitize(rules, heap, ValueAt(heap, v, path).value, depth + |path|, maxDepth,
                             active + Ancestors(heap, v, path))
    decreases |path|
  {
    EnumIsTransparent(rules, heap, v, depth, maxDepth, active);
    if path == [] {
      assert active + {} == active;
    } else {
      hide SlotsOf, IsSecretSlot;
      var id := Unwrap(v).id;
      var slots := SlotsOf(heap[id]);
      var i := path[0];
      ChildAt(rules, heap, slots, |slots.values|, depth + 1, maxDepth, active + {id}, i);
      if IsSecretSlot(rules, slots.keys, i) {
        assert path[1..] == [] && path == [i];
      } else {
        PositionRule(rules, heap, slots.values[i], depth + 1, maxDepth, active + {id}, path[1..]);
        assert active + {id} + Ancestors(heap, slots.values[i], path[1..]) == active + Ancestors(heap, v, path);
      }
    }
  }

  /** Only true ancestors are marked as cycles: a position shows the cycle marker if and only
      if its container is among the containers on the path to it; any other container in
      depth, shared or not, is rendered in full, slot for slot. */
  lemma CyclesAreAncestors(rules: Rules, heap: Heap, v: Value, maxDepth: nat, path: seq<nat>)
    requires TreeAt(Sanitize(rules, heap, v, 0, maxDepth, {}), path).Some?
    ensures |path| <= maxDepth && ValueAt(heap, v, path).Some?
    ensures var t := TreeAt(Sanitize(rules, heap, v, 0, maxDepth, {}), path).value;
            var c := Unwrap(ValueAt(heap, v, path).value);
            var container := c.Ref? && c.id in heap && !UnderSecret(rules, heap, v, path) && |path| < maxDepth;
            && (t == Marker(CycleMark) <==> container && c.id in Ancestors(heap, v, path))
            && (t.Node? <==> container && c.id !in Ancestors(heap, v, path))
            && (t.Node? ==> t.keys == SlotsOf(heap[c.id]).keys && |t.children| == |SlotsOf(heap[c.id]).values|)
            && (t == Marker(Redacted) <==> UnderSecret(rules, heap, v, path))
  {
    hide SlotsOf, UnderSecret, Ancestors, ValueAt, TreeAt;
    PositionRule(rules, heap, v, 0, maxDepth, {}, path);
    var w := ValueAt(heap, v, path).value;
    assert {} + Ancestors(heap, v, path) == Ancestors(heap, v, path);
    EnumIsTransparent(rules, heap, w, |path|, maxDepth, Ancestors(heap, v, path));
  }

  /** What stands for what, exactly, at every position not under a secret key: each marker iff
      the graph has there, under any number of enum members, the one kind of value it stands
      for, and any other plain value iff it stands there itself. */
  lemma MarkersAreExact(rules: Rules, heap: Heap, v: Value, maxDepth: nat, path: seq<nat>)
    requires TreeAt(Sanitize(rules, heap, v, 0, maxDepth, {}), path).Some?
    requires !UnderSecret(rules, heap, v, path)
    ensures |path| <= maxDepth && ValueAt(heap, v, path).Some?
    ensures var t := TreeAt(Sanitize(rules, heap, v, 0, maxDepth, {}), path).value;
            var c := Unwrap(ValueAt(heap, v, path).value);
            var privateText := c.Plain? && c.scalar.Text? && rules.private(c.scalar.s);
            && (t == Marker(NonFiniteMark) <==> c.NonFinite?)
            && (t == Marker(BinaryMark) <==> c.Binary?)
            && (t == Marker(ExceptionMark) <==> c.ExceptionValue?)
            && (t == Marker(PathMark) <==> c.PathValue? || privateText)
            && (t == Marker(ObjectMark) <==> c.Opaque? || (c.Ref? && c.id !in heap))
            && (t == Marker(DepthMark) <==> c.Ref? && c.id in heap && |path| == maxDepth)
            && (t.Leaf? <==> c.Plain? && !privateText) && (t.Leaf? ==> t.scalar == c.scalar)
  {
    hide SlotsOf, UnderSecret, Ancestors, ValueAt, TreeAt;
    PositionRule(rules, heap, v, 0, maxDepth, {}, path);
    var w := ValueAt(heap, v, path).value;
    assert {} + Ancestors(heap, v, path) == Ancestors(heap, v, path);
    EnumIsTransparent(rules, heap, w, |path|, maxDepth, Ancestors(heap, v, path));
  }

  // -------------------------------------------------------------- idempotence

  function SeenAs(t: Tree): Scalar
    requires !t.Node?
  {
    if t.Leaf? then t.scalar else Text(MarkerText(t.kind))
  }

  /** Equal to a reader, to whom a marker is its text. */
  predicate Same(a: Tree, b: Tree)
    decreases b
  {
    if b.Node? then
      && a.Node? && a.keys == b.keys && |a.children| == |b.children|
      && forall i :: 0 <= i < |b.children| ==> Same(a.children[i], b.children[i])
    else !a.Node? && SeenAs(a) == SeenAs(b)
  }

  /** The tree is stored in the heap at `v`, as new containers off `avoid`. */
  predicate Represents(heap: Heap, v: Value, t: Tree, avoid: set<Id>)
    decreases t
  {
    match t
    case Node(keys, children) =>
      && v.Ref? && v.id in heap && v.id !in avoid
      && SlotsOf(heap[v.id]).keys == keys && |SlotsOf(heap[v.id]).values| == |children|
      && forall i :: 0 <= i < |children| ==>
           Represents(heap, SlotsOf(heap[v.id]).values[i], children[i], avoid + {v.id})
    case _ => v == Plain(SeenAs(t))
  }

  lemma {:induction false} SafeTreeIsKept(rules: Rules, heap: Heap, v: Value, t: Tree, depth: nat, maxDepth: nat,
                                          active: set<Id>)
    requires Sane(rules) && Safe(rules, t) && depth <= maxDepth && NestedWithin(t, maxDepth - depth)
    requires Represents(heap, v, t, active)
    ensures Same(Sanitize(rules, heap, v, depth, maxDepth, active), t)
    decreases t
  {
    if t.Node? {
      hide SlotsOf, IsSecretSlot, Children;
      var slots := SlotsOf(heap[v.id]);
      var children := Children(rules, heap, slots, |slots.values|, depth + 1, maxDepth, active + {v.id});
      forall i | 0 <= i < |t.children| ensures Same(children[i], t.children[i]) {
        ChildAt(rules, heap, slots, |slots.values|, depth + 1, maxDepth, active + {v.id}, i);
        if !IsSecretSlot(rules, slots.keys, i) {
          SafeTreeIsKept(rules, heap, slots.values[i], t.children[i], depth + 1, maxDepth, active + {v.id});
        }
      }
    }
  }

  /** Sanitizing what has been sanitized changes nothing. */
  lemma Idempotent(rules: Rules, heap: Heap, v: Value, maxDepth: nat, again: Heap, w: Value)
    requires Sane(rules)
    requires Represents(again, w, Sanitize(rules, heap, v, 0, maxDepth, {}), {})
    ensures Same(Sanitize(rules, again, w, 0, maxDepth, {}), Sanitize(rules, heap, v, 0, maxDepth, {}))
  {
    hide Sanitize, Represents, Same, Safe, NestedWithin;
    SanitizedIsSafe(rules, heap, v, 0, maxDepth, {});
    SafeTreeIsKept(rules, again, w, Sanitize(rules, heap, v, 0, maxDepth, {}), 0, maxDepth, {});
  }

  // ------------------------------------------------------------------ in place

  /** One more entry put into a mapping being sanitized. */
  lemma ChildrenPut(rules: Rules, heap: Heap, slots: (seq<string>, seq<Value>), key: string, value: Value,
                    depth: nat, maxDepth: nat, active: set<Id>)
    requires depth <= maxDepth && |slots.0| == |slots.1|
    ensures var (keys, values) := Put(slots, key, value);
            var child := if rules.secret(key) then Marker(Redacted)
                         else Sanitize(rules, heap, value, depth, maxDepth, active);
            Put((slots.0, Children(rules, heap, Slots(Some(slots.0), slots.1), |slots.1|, depth, maxDepth, active)),
                key, child)
            == (keys, Children(rules, heap, Slots(Some(keys), values), |values|, depth, maxDepth, active))
  {
    var (keys, values) := Put(slots, key, value);
    var child := if rules.secret(key) then Marker(Redacted)
                 else Sanitize(rules, heap, value, depth, maxDepth, active);
    var before := Children(rules, heap, Slots(Some(slots.0), slots.1), |slots.1|, depth, maxDepth, active);
    var after := Children(rules, heap, Slots(Some(keys), values), |values|, depth, maxDepth, active);
    var put := Put((slots.0, before), key, child);
    hide Sanitize, Children;
    forall i | 0 <= i < |values| ensures after[i] == put.1[i] {
      ChildAt(rules, heap, Slots(Some(keys), values), |values|, depth, maxDepth, active, i);
      if i < |slots.1| {
        ChildAt(rules, heap, Slots(Some(slots.0), slots.1), |slots.1|, depth, maxDepth, active, i);
      }
    }
    assert after == put.1;
  }

  /** The sanitizer with the one set of active containers that the recursion adds to and
      removes from. */
  class Sanitizer {
    const rules: Rules
    const heap: Heap
    const maxDepth: nat
    var activeIds: set<Id>

    constructor (rules: Rules, heap: Heap, maxDepth: nat)
      ensures this.rules == rules && this.heap == heap && this.maxDepth == maxDepth && activeIds == {}
    {
      this.rules, this.heap, this.maxDepth, activeIds := rules, heap, maxDepth, {};
    }

    method SanitizePublicValue(v: Value, depth: nat) returns (t: Tree)
      requires depth <= maxDepth
      modifies this
      ensures t == Sanitize(rules, heap, v, depth, maxDepth, old(activeIds)) && activeIds == old(activeIds)
      decreases maxDepth - depth, 1, v, 0
    {
      match v
      case Plain(Text(s)) => if rules.private(s) { t := Marker(PathMark); } else { t := Leaf(Text(s)); }
      case Plain(scalar) => t := Leaf(scalar);
      case NonFinite => t := Marker(NonFiniteMark);
      case Binary => t := Marker(BinaryMark);
      case ExceptionValue => t := Marker(ExceptionMark);
      case PathValue => t := Marker(PathMark);
      case EnumMember(inner) => t := SanitizePublicValue(inner, depth);
      case Opaque => t := Marker(ObjectMark);
      case Ref(id) => if id in heap { t := SanitizeContainer(id, depth); } else { t := Marker(ObjectMark); }
    }

    method SanitizeContainer(id: Id, depth: nat) returns (t: Tree)
      requires depth <= maxDepth && id in heap
      modifies this
      ensures t == Sanitize(rules, heap, Ref(id), depth, maxDepth, old(activeIds)) && activeIds == old(activeIds)
      decreases maxDepth - depth, 0
    {
      if depth >= maxDepth { return Marker(DepthMark); }
      if id in activeIds { return Marker(CycleMark); }
      ghost var outside := activeIds;
      activeIds := activeIds + {id};
      match heap[id] {
        case Items(values) =>
          var items := SanitizeItems(values, depth + 1);
          t := Node(None, items);
        case Mapping(entries) =>
          var keys, children := SanitizeEntries(entries, depth + 1);
          t := Node(Some(keys), children);
        case Record(entries) =>
          var keys, children := SanitizeEntries(entries, depth + 1);
          t := Node(Some(keys), children);
      }
      activeIds := activeIds - {id};
      assert activeIds == outside;
    }

    method SanitizeItems(values: seq<Value>, depth: nat) returns (items: seq<Tree>)
      requires depth <= maxDepth
      modifies this
      ensures items == Children(rules, heap, Slots(None, values), |values|, depth, maxDepth, old(activeIds))
      ensures activeIds == old(activeIds)
      decreases maxDepth - depth, 2
    {
      items := [];
      for i := 0 to |values|
        invariant activeIds == old(activeIds)
        invariant items == Children(rules, heap, Slots(None, values), i, depth, maxDepth, activeIds)
      {
        var item := SanitizePublicValue(values[i], depth);
        items := items + [item];
      }
    }

    method SanitizeEntries(entries: seq<(string, Value)>, depth: nat)
      returns (keys: seq<string>, children: seq<Tree>)
      requires depth <= maxDepth
      modifies this
      ensures var slots := PutAll(entries);
              && keys == slots.0
              && children == Children(rules, heap, Slots(Some(slots.0), slots.1), |slots.1|, depth, maxDepth,
                                      old(activeIds))
      ensures activeIds == old(activeIds)
      decreases maxDepth - depth, 2
    {
      hide Sanitize, Children, Put;
      keys, children := [], [];
      NoChildren(rules, heap, depth, maxDepth, activeIds);
      for i := 0 to |entries|
        invariant activeIds == old(activeIds) && |keys| == |children|
        invariant keys == PutAll(entries[..i]).0
        invariant children == Children(rules, heap, Slots(Some(keys), PutAll(entries[..i]).1),
                                       |PutAll(entries[..i]).1|, depth, maxDepth, activeIds)
      {
        var (key, value) := entries[i];
        ghost var slots := PutAll(entries[..i]);
        assert entries[..i + 1][..i] == entries[..i];
        ChildrenPut(rules, heap, slots, key, value, depth, maxDepth, activeIds);
        var child := Marker(Redacted);
        if !rules.secret(key) { child := SanitizePublicValue(value, depth); }
        var safe := Put((keys, children), key, child);
        keys, children := safe.0, safe.1;
      }
      assert entries[..|entries|] == entries;
    }
  }

  lemma NoChildren(rules: Rules, heap: Heap, depth: nat, maxDepth: nat, active: set<Id>)
    requires depth <= maxDepth
    ensures PutAll([]) == ([], [])
    ensures Children(rules, heap, Slots(Some([]), []), 0, depth, maxDepth, active) == []
  {
  }
}
