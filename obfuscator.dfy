/**
  The renaming pass itself: class `Obfuscator` of obfuscator.py (lines 14-277).

  One `Obfuscator` walks one module's tree. It shares the alias generator and
  the name-to-alias registry with every other file of the run (a
  `RunContext`), and keeps per-file state: the nesting level, the attribute
  names seen on `self`, the names renamed in the current class scope, the
  attribute reads waiting for their name to be renamed, the public names to
  re-export, and one stack per scoped field.

  The tree is a value; each `Visit*` returns the rewritten node, as a
  `NodeTransformer` visitor does. The member names of `Attribute` nodes live
  in `arena`, where a deferred rename patches them. Visitors return `ok ==
  false` where the Python code raises, and the walk stops there.
 */
module Obfuscation {
  import opened Aliases
  import opened Registry
  import opened Syntax
  import opened Literals
  import opened Slots
  import opened Exports

  /** Deferred attribute reads: name to the arena slots that read it. */
  type Pending = map<string, seq<nat>>

  /** One saved class scope: `_attrs`, `_methods`, `_mapper` and `_pending` as they were when the scope opened. */
  datatype Frame = Frame(attrs: seq<string>, methods: Pairs, mapper: map<string, string>, pending: Pending)

  predicate SlotsIn(p: Pending, size: nat) {
    forall k :: k in p ==> forall j :: 0 <= j < |p[k]| ==> p[k][j] < size
  }

  function PendingOf(p: Pending, name: string): seq<nat> {
    if name in p then p[name] else []
  }

  /** The arena after every slot in `slots` is set to `s`. */
  function Patched(cells: seq<string>, slots: seq<nat>, s: string): (r: seq<string>)
    ensures |r| == |cells|
  {
    seq(|cells|, j requires 0 <= j < |cells| => if j in slots then s else cells[j])
  }

  lemma UpdateAgain(m: map<string, string>, k: string, x: string, y: string)
    ensures m[k := x][k := y] == m[k := y]
  {
  }

  lemma SlotsInUnion(p: Pending, q: Pending, size: nat)
    requires SlotsIn(p, size) && SlotsIn(q, size)
    ensures SlotsIn(p + q, size)
  {
  }

  lemma PatchedNothing(cells: seq<string>, s: string)
    ensures Patched(cells, [], s) == cells
  {
  }

  // ---------------------------------------------------------------------------
  // Which names an assignment records as module constants
  // ---------------------------------------------------------------------------

  /** The names bound by one element of a tuple target, depth first (private ones included). */
  function ElementNames(e: Node): seq<string>
    decreases e, 1, 0
  {
    if e.Name? then [e.id] else if e.Tuple? then NamesUpTo(e, |e.elts|) else []
  }

  /** The names bound by the first `i` elements of a tuple target. */
  function NamesUpTo(t: Node, i: nat): seq<string>
    requires t.Tuple? && i <= |t.elts|
    decreases t, 0, i
  {
    if i == 0 then [] else NamesUpTo(t, i - 1) + ElementNames(t.elts[i - 1])
  }

  /** The names one target of a module-level assignment records (obfuscator.py:178-183). */
  function TargetNames(t: Node): seq<string> {
    if t.Name? then (if IsPrivate(t.id) then [] else [t.id]) else ElementNames(t)
  }

  function AssignedNames(ts: seq<Node>): seq<string>
    decreases |ts|
  {
    if ts == [] then [] else AssignedNames(ts[..|ts| - 1]) + TargetNames(ts[|ts| - 1])
  }

  /**
    Where `_renameAssignTarget` raises (obfuscator.py:91-99): a subscript of
    `self` has no `attr`, so `self[k] = v` (or `self[k][j] = v`) raises
    AttributeError at line 95.
   */
  predicate TargetRaises(t: Node)
    requires t.Attribute? || t.Subscript?
    decreases t
  {
    if t.value == Name("self") then t.Subscript?
    else if t.value.Subscript? then TargetRaises(t.value)
    else false
  }

  function ElementRaises(e: Node): bool
    decreases e, 1, 0
  {
    if e.Tuple? then RaisesUpTo(e, |e.elts|)
    else if e.Attribute? || e.Subscript? then TargetRaises(e)
    else false
  }

  /** Whether one of the first `i` elements of a tuple target raises. */
  function RaisesUpTo(t: Node, i: nat): bool
    requires t.Tuple? && i <= |t.elts|
    decreases t, 0, i
  {
    i > 0 && (RaisesUpTo(t, i - 1) || ElementRaises(t.elts[i - 1]))
  }

  lemma {:induction false} RaisesUpToMono(t: Node, i: nat, j: nat)
    requires t.Tuple? && i <= j <= |t.elts| && RaisesUpTo(t, i)
    ensures RaisesUpTo(t, j)
    decreases j
  {
    if i < j {
      RaisesUpToMono(t, i, j - 1);
    }
  }

  /** Whether one of an assignment's targets raises, the first one that does stopping the walk. */
  function TargetsRaise(ts: seq<Node>): bool
    decreases |ts|
  {
    ts != [] && (TargetsRaise(ts[..|ts| - 1]) || ElementRaises(ts[|ts| - 1]))
  }

  lemma {:induction false} TargetsRaiseSome(ts: seq<Node>)
    ensures TargetsRaise(ts) <==> exists i :: 0 <= i < |ts| && ElementRaises(ts[i])
    decreases |ts|
  {
    if ts != [] {
      var init := ts[..|ts| - 1];
      TargetsRaiseSome(init);
      if TargetsRaise(init) {
        var i :| 0 <= i < |init| && ElementRaises(init[i]);
        assert ts[i] == init[i];
      }
      if exists i :: 0 <= i < |ts| && ElementRaises(ts[i]) {
        var i :| 0 <= i < |ts| && ElementRaises(ts[i]);
        if i < |init| {
          assert init[i] == ts[i];
        }
      }
    }
  }

  /** An assignment to `self.<private name>`, the one target `_renameAssignTarget` renames. */
  predicate SelfPrivate(t: Node, cells: seq<string>) {
    t.Attribute? && t.value == Name("self") && t.slot < |cells| && IsPrivate(cells[t.slot])
  }

  // ---------------------------------------------------------------------------
  // What a visit keeps of a node
  // ---------------------------------------------------------------------------

  /**
    A visit keeps a node's kind (a string constant becomes a call, which is
    neither a name nor an assignment), the number of an assignment's targets,
    and which of its targets are `__slots__`.
   */
  predicate ShapeKept(n: Node, r: Node) {
    && (n.Assign? <==> r.Assign?)
    && (n.Name? <==> r.Name?)
    && (n.Name? ==> (n.id == SlotsName <==> r.id == SlotsName))
    && (n.Assign? ==>
          && |r.targets| == |n.targets|
          && forall i :: 0 <= i < |n.targets| ==> (IsSlotsTarget(n.targets[i]) <==> IsSlotsTarget(r.targets[i])))
    && (n.Module? ==> r.Module? && |r.body| == |n.body|)
  }

  predicate AllShapeKept(ns: seq<Node>, rs: seq<Node>) {
    |rs| == |ns| && forall i :: 0 <= i < |ns| ==> ShapeKept(ns[i], rs[i])
  }

  /** A visited class body without `__slots__` declarations still has none. */
  lemma SlotsFreeKept(ns: seq<Node>, rs: seq<Node>)
    requires SlotsFree(ns) && AllShapeKept(ns, rs)
    ensures SlotsFree(rs)
  {
    forall i | 0 <= i < |rs| && rs[i].Assign?
      ensures rs[i].targets != [] && forall t :: t in rs[i].targets ==> !IsSlotsTarget(t)
    {
      forall t | t in rs[i].targets
        ensures !IsSlotsTarget(t)
      {
        var j :| 0 <= j < |rs[i].targets| && rs[i].targets[j] == t;
        assert ns[i].targets[j] in ns[i].targets;
      }
    }
  }

  lemma AliasIsNotSlots(a: string)
    requires IsAlias(a)
    ensures a != SlotsName
  {
    assert !IsLetter(SlotsName[0]);
  }

  // ---------------------------------------------------------------------------
  // What the walk makes of a tree
  // ---------------------------------------------------------------------------

  /** The identifiers `visit_Name` never renames: `__`-prefixed ones and builtins (obfuscator.py:154-155). */
  predicate Kept(id: string, builtins: set<string>) {
    IsDunder(id) || id in builtins
  }

  /** Every imported name is kept and gets its registry alias as `asname` (obfuscator.py:190-191, 246-247). */
  predicate ImportsRenamed(as_: seq<ImportName>, rs: seq<ImportName>, names: map<string, string>) {
    && |rs| == |as_|
    && forall i :: 0 <= i < |as_| ==>
      rs[i].name == as_[i].name && rs[i].asname.Some? && Recorded(names, (as_[i].name, rs[i].asname.value))
  }

  /** A `*args` or `**kwargs` parameter, present or not, and its alias (obfuscator.py:258-261). */
  predicate OptionRenamed(id: Option<string>, r: Option<string>, names: map<string, string>) {
    r.Some? == id.Some? && (id.Some? ==> Recorded(names, (id.value, r.value)))
  }

  /**
    `r` is what the walk makes of `n` under the registry `names`: every
    identifier the source renames carries its registry alias, every string
    constant is replaced by its encoding, a class body has lost its
    `__slots__` declarations, and every node keeps its kind and its other
    fields. The member names of attribute nodes live in the arena and are not
    compared here, nor is the re-export that ends a class body.
   */
  ghost predicate Renamed(n: Node, r: Node, names: map<string, string>, builtins: set<string>)
    decreases Size(n), 0
  {
    match n
    case Module(b) => r.Module? && AllRenamed(b, r.body, names, builtins)
    case Name(id) => r.Name? && if Kept(id, builtins) then r.id == id else Recorded(names, (id, r.id))
    case Attribute(v, slot) => r.Attribute? && r.slot == slot && Renamed(v, r.value, names, builtins)
    case Subscript(v, sl) => r.Subscript? && Renamed(v, r.value, names, builtins) && Renamed(sl, r.slice, names, builtins)
    case Tuple(es) => r.Tuple? && AllRenamed(es, r.elts, names, builtins)
    case List(es) => r.List? && AllRenamed(es, r.elts, names, builtins)
    case Num(_) => r == n
    case Str(v) => exists slot: nat :: r == EncodedLiteral(v, slot)
    case Call(f, as_) => r.Call? && Renamed(f, r.func, names, builtins) && AllRenamed(as_, r.args, names, builtins)
    case Assign(ts, v) => r.Assign? && AllRenamed(ts, r.targets, names, builtins) && Renamed(v, r.value, names, builtins)
    case Global(ids) =>
      && r.Global? && |r.names| == |ids|
      && forall i :: 0 <= i < |ids| ==> Recorded(names, (ids[i], r.names[i]))
    case Import(as_) => r.Import? && ImportsRenamed(as_, r.aliases, names)
    case ImportFrom(m, as_, l) => r.ImportFrom? && r.source == m && r.level == l && ImportsRenamed(as_, r.aliases, names)
    case FunctionDef(id, a, b, d) =>
      && r.FunctionDef?
      && (if IsDunder(id) then r.name == id else Recorded(names, (id, r.name)))
      && OptionRenamed(a.vararg, r.arguments.vararg, names)
      && OptionRenamed(a.kwarg, r.arguments.kwarg, names)
      && AllRenamed(a.args, r.arguments.args, names, builtins)
      && AllRenamed(a.defaults, r.arguments.defaults, names, builtins)
      && AllRenamed(b, r.body, names, builtins)
      && AllRenamed(d, r.decorators, names, builtins)
    case ClassDef(id, bs, b, d) =>
      SlotsStrippedSizeList(b);
      var kept := SlotsStripped(b);
      && r.ClassDef? && Recorded(names, (id, r.name))
      && AllRenamed(bs, r.bases, names, builtins)
      && |kept| <= |r.body| && AllRenamed(kept, r.body[..|kept|], names, builtins)
      && AllRenamed(d, r.decorators, names, builtins)
    case Block(k, ps) => r.Block? && r.kind == k && AllRenamed(ps, r.parts, names, builtins)
    case Other(t, ps) => r.Other? && r.tag == t && AllRenamed(ps, r.children, names, builtins)
  }

  ghost predicate AllRenamed(ns: seq<Node>, rs: seq<Node>, names: map<string, string>, builtins: set<string>)
    decreases SizeList(ns), 1
  {
    SizeListElems(ns);
    |rs| == |ns| && forall i :: 0 <= i < |ns| ==> Renamed(ns[i], rs[i], names, builtins)
  }

  /** A renamed tree stays renamed while the registry only gains entries. */
  lemma {:induction false} RenamedKeeps(n: Node, r: Node, m1: map<string, string>, m2: map<string, string>, builtins: set<string>)
    requires Renamed(n, r, m1, builtins) && Keeps(m1, m2)
    ensures Renamed(n, r, m2, builtins)
    decreases Size(n), 0
  {
    match n
    case Module(b) => AllRenamedKeeps(b, r.body, m1, m2, builtins);
    case Attribute(v, _) => RenamedKeeps(v, r.value, m1, m2, builtins);
    case Subscript(v, sl) =>
      RenamedKeeps(v, r.value, m1, m2, builtins);
      RenamedKeeps(sl, r.slice, m1, m2, builtins);
    case Tuple(es) => AllRenamedKeeps(es, r.elts, m1, m2, builtins);
    case List(es) => AllRenamedKeeps(es, r.elts, m1, m2, builtins);
    case Call(f, as_) =>
      RenamedKeeps(f, r.func, m1, m2, builtins);
      AllRenamedKeeps(as_, r.args, m1, m2, builtins);
    case Assign(ts, v) =>
      AllRenamedKeeps(ts, r.targets, m1, m2, builtins);
      RenamedKeeps(v, r.value, m1, m2, builtins);
    case FunctionDef(_, a, b, d) =>
      AllRenamedKeeps(a.args, r.arguments.args, m1, m2, builtins);
      AllRenamedKeeps(a.defaults, r.arguments.defaults, m1, m2, builtins);
      AllRenamedKeeps(b, r.body, m1, m2, builtins);
      AllRenamedKeeps(d, r.decorators, m1, m2, builtins);
    case ClassDef(_, bs, b, d) =>
      SlotsStrippedSizeList(b);
      var kept := SlotsStripped(b);
      AllRenamedKeeps(bs, r.bases, m1, m2, builtins);
      AllRenamedKeeps(kept, r.body[..|kept|], m1, m2, builtins);
      AllRenamedKeeps(d, r.decorators, m1, m2, builtins);
    case Block(_, ps) => AllRenamedKeeps(ps, r.parts, m1, m2, builtins);
    case Other(_, ps) => AllRenamedKeeps(ps, r.children, m1, m2, builtins);
    case _ =>
  }

  lemma {:induction false} AllRenamedKeeps(ns: seq<Node>, rs: seq<Node>, m1: map<string, string>, m2: map<string, string>, builtins: set<string>)
    requires AllRenamed(ns, rs, m1, builtins) && Keeps(m1, m2)
    ensures AllRenamed(ns, rs, m2, builtins)
    decreases SizeList(ns), 1
  {
    SizeListElems(ns);
    forall i | 0 <= i < |ns|
      ensures Renamed(ns[i], rs[i], m2, builtins)
    {
      RenamedKeeps(ns[i], rs[i], m1, m2, builtins);
    }
  }

  // ---------------------------------------------------------------------------
  // The part of the state a visit only extends
  // ---------------------------------------------------------------------------

  /** The registry `m2` keeps every alias `m1` gave. */
  predicate Keeps(m1: map<string, string>, m2: map<string, string>) {
    forall n :: n in m1 ==> n in m2 && m2[n] == m1[n]
  }

  /** A recorded (name, alias) pair agrees with the registry. */
  predicate Recorded(names: map<string, string>, p: (string, string)) {
    (p.0 == "self" && p.1 == "self") || (p.0 in names && names[p.0] == p.1)
  }

  predicate AllRecorded(names: map<string, string>, ps: Pairs) {
    forall p :: p in ps ==> Recorded(names, p)
  }

  predicate AllPublic(ps: Pairs) {
    forall p :: p in ps ==> !IsPrivate(p.0)
  }

  /** A public function definition, once visited, has its (name, alias) pair queued in `ms` for re-export (obfuscator.py:255-257). */
  predicate Queues(n: Node, r: Node, ms: Pairs) {
    n.FunctionDef? && !IsPrivate(n.name) ==> r.FunctionDef? && (n.name, r.name) in ms
  }

  predicate AllQueued(ns: seq<Node>, rs: seq<Node>, ms: Pairs) {
    |rs| == |ns| && forall j :: 0 <= j < |ns| ==> Queues(ns[j], rs[j], ms)
  }

  /** A saved scope agrees with the registry as the live one does. */
  predicate FrameTracks(names: map<string, string>, f: Frame, size: nat) {
    && f.mapper.Keys <= names.Keys && SlotsIn(f.pending, size)
    && AllRecorded(names, f.methods) && AllPublic(f.methods)
  }

  /** Deferred slots stay in range while the arena grows. */
  lemma FrameTracksGrow(names: map<string, string>, f: Frame, size: nat, size': nat)
    requires FrameTracks(names, f, size) && size <= size'
    ensures FrameTracks(names, f, size')
  {
  }

  lemma AllRecordedStable(m1: map<string, string>, m2: map<string, string>, ps: Pairs)
    requires AllRecorded(m1, ps) && Keeps(m1, m2)
    ensures AllRecorded(m2, ps)
  {
  }

  datatype Snap = Snap(
    names: map<string, string>, size: nat, level: nat,
    stack: seq<Frame>,
    constants: Pairs, classes: Pairs, attrs: seq<string>, methods: Pairs, scope: set<string>)

  /**
    What every visit guarantees: aliases already given are kept, the arena only
    grows, the nesting level is back at its entry value, the scope stacks are as
    they were, the recorded lists only grow at the end, the renamed-in-scope set
    only grows, and below module level no constant is recorded.
   */
  predicate Grown(a: Snap, b: Snap) {
    && Keeps(a.names, b.names)
    && a.size <= b.size
    && b.level == a.level
    && b.stack == a.stack
    && a.constants <= b.constants && a.classes <= b.classes
    && a.attrs <= b.attrs && a.methods <= b.methods
    && a.scope <= b.scope
    && (a.level > 0 ==> b.constants == a.constants)
  }

  /**
    What a visited statement has put on the re-export lists of `s`: a public
    function its (name, alias) pair in the methods (obfuscator.py:255-257), a
    public class its pair in the classes (obfuscator.py:197-198), and a
    module-level assignment every name it records among the constants
    (obfuscator.py:178-183).
   */
  predicate Listed(n: Node, r: Node, s: Snap) {
    && Queues(n, r, s.methods)
    && (n.ClassDef? && !IsPrivate(n.name) ==> r.ClassDef? && (n.name, r.name) in s.classes)
    && (n.Assign? && s.level == 0 ==> forall x :: x in AssignedNames(n.targets) ==> x in Exported(s.constants))
  }

  predicate AllListed(ns: seq<Node>, rs: seq<Node>, s: Snap) {
    |rs| == |ns| && forall j :: 0 <= j < |ns| ==> Listed(ns[j], rs[j], s)
  }

  lemma InPrefix<T>(x: T, a: seq<T>, b: seq<T>)
    requires x in a && a <= b
    ensures x in b
  {
    var k :| 0 <= k < |a| && a[k] == x;
    assert b[k] == x;
  }

  lemma ExportedPrefix(a: Pairs, b: Pairs)
    requires a <= b
    ensures forall x :: x in Exported(a) ==> x in Exported(b)
  {
    forall x | x in Exported(a)
      ensures x in Exported(b)
    {
      var k :| 0 <= k < |a| && Exported(a)[k] == x;
      assert Exported(b)[k] == x;
    }
  }

  /** What a visit has listed stays listed while the lists only grow at their ends. */
  lemma ListedGrow(ns: seq<Node>, rs: seq<Node>, i: nat, a: Snap, b: Snap)
    requires i <= |ns| && i <= |rs| && Grown(a, b)
    requires forall j :: 0 <= j < i ==> Listed(ns[j], rs[j], a)
    ensures forall j :: 0 <= j < i ==> Listed(ns[j], rs[j], b)
  {
    ExportedPrefix(a.constants, b.constants);
    forall j | 0 <= j < i
      ensures Listed(ns[j], rs[j], b)
    {
      if ns[j].FunctionDef? && !IsPrivate(ns[j].name) {
        InPrefix((ns[j].name, rs[j].name), a.methods, b.methods);
      }
      if ns[j].ClassDef? && !IsPrivate(ns[j].name) {
        InPrefix((ns[j].name, rs[j].name), a.classes, b.classes);
      }
    }
  }

  lemma ListedQueued(ns: seq<Node>, rs: seq<Node>, s: Snap)
    requires AllListed(ns, rs, s)
    ensures AllQueued(ns, rs, s.methods)
  {
    forall j | 0 <= j < |ns|
      ensures Queues(ns[j], rs[j], s.methods)
    {
      assert Listed(ns[j], rs[j], s);
    }
  }

  /** At module level, what the walk listed is among the pairs `obfuscate` re-exports (obfuscator.py:275). */
  lemma TopLevelExported(ns: seq<Node>, rs: seq<Node>, s: Snap)
    requires AllListed(ns, rs, s) && s.level == 0
    ensures forall i :: 0 <= i < |ns| ==> var n, r, pairs := ns[i], rs[i], s.constants + s.classes + s.methods;
      && (n.FunctionDef? && !IsPrivate(n.name) ==> r.FunctionDef? && (n.name, r.name) in pairs)
      && (n.ClassDef? && !IsPrivate(n.name) ==> r.ClassDef? && (n.name, r.name) in pairs)
      && (n.Assign? ==> forall x :: x in AssignedNames(n.targets) ==> x in Exported(pairs))
  {
    var pairs := s.constants + s.classes + s.methods;
    ExportedPrefix(s.constants, pairs);
    forall i | 0 <= i < |ns|
      ensures var n, r := ns[i], rs[i];
        && (n.FunctionDef? && !IsPrivate(n.name) ==> (n.name, r.name) in pairs)
        && (n.ClassDef? && !IsPrivate(n.name) ==> (n.name, r.name) in pairs)
    {
      assert Listed(ns[i], rs[i], s);
    }
  }

  /** A literal's replacement is a renaming of it, whatever cell its `decode` member takes. */
  lemma LiteralRenamed(v: StrValue, slot: nat, names: map<string, string>, builtins: set<string>)
    ensures Renamed(Str(v), EncodedLiteral(v, slot), names, builtins)
  {
    assert EncodedLiteral(v, slot) == EncodedLiteral(v, slot);
  }

  /** The first `i` elements of a list field, walked: kind kept, names listed for re-export, identifiers renamed. */
  ghost predicate WalkedUpTo(ns: seq<Node>, rs: seq<Node>, i: nat, s: Snap, builtins: set<string>) {
    && i <= |ns| && |rs| == i
    && forall j :: 0 <= j < i ==> ShapeKept(ns[j], rs[j]) && Listed(ns[j], rs[j], s) && Renamed(ns[j], rs[j], s.names, builtins)
  }

  /** One more element walked, while the state only grew. */
  lemma WalkedStep(ns: seq<Node>, rs: seq<Node>, i: nat, x: Node, a: Snap, b: Snap, builtins: set<string>)
    requires WalkedUpTo(ns, rs, i, a, builtins) && i < |ns| && Grown(a, b)
    requires ShapeKept(ns[i], x) && Listed(ns[i], x, b) && Renamed(ns[i], x, b.names, builtins)
    ensures WalkedUpTo(ns, rs + [x], i + 1, b, builtins)
  {
    ListedGrow(ns, rs, i, a, b);
    forall j | 0 <= j < i
      ensures Renamed(ns[j], rs[j], b.names, builtins)
    {
      RenamedKeeps(ns[j], rs[j], a.names, b.names, builtins);
    }
  }

  lemma WalkedAll(ns: seq<Node>, rs: seq<Node>, s: Snap, builtins: set<string>)
    requires WalkedUpTo(ns, rs, |ns|, s, builtins)
    ensures AllShapeKept(ns, rs) && AllListed(ns, rs, s) && AllRenamed(ns, rs, s.names, builtins)
  {
  }

  lemma GrownTrans(a: Snap, b: Snap, c: Snap)
    requires Grown(a, b) && Grown(b, c)
    ensures Grown(a, c)
  {
  }

  /** A walk one level down, with the level put back afterwards, records no constant. */
  lemma GrownInside(a: Snap, b: Snap)
    requires Grown(a.(level := a.level + 1), b.(level := a.level + 1)) && b.level == a.level
    ensures Grown(a, b) && b.constants == a.constants
  {
  }

  /** `b` is `a` with a class scope opened: the scoped fields pushed, the methods and pending reads emptied. */
  predicate Opened(a: Snap, b: Snap) {
    && Keeps(a.names, b.names) && b.size == a.size && b.level == a.level
    && |b.stack| == |a.stack| + 1 && b.stack[..|a.stack|] == a.stack
    && b.stack[|a.stack|].attrs == a.attrs && b.stack[|a.stack|].methods == a.methods
    && b.stack[|a.stack|].mapper.Keys == b.scope
    && b.constants == a.constants && a.classes <= b.classes
    && b.attrs == a.attrs && b.methods == [] && a.scope <= b.scope
  }

  /** `b` is `a` with its innermost class scope closed: the scoped fields popped. */
  predicate Closed(a: Snap, b: Snap)
    requires |a.stack| > 0
  {
    var top := a.stack[|a.stack| - 1];
    && b.names == a.names && b.size == a.size && b.level == a.level
    && b.stack == a.stack[..|a.stack| - 1]
    && b.attrs == top.attrs && b.methods == top.methods && b.scope == top.mapper.Keys
    && b.constants == a.constants && b.classes == a.classes
  }

  /** Pushing the scoped fields and starting afresh opens a scope. */
  lemma PushOpened(a: Snap, b: Snap, f: Frame)
    requires b.names == a.names && b.size == a.size && b.level == a.level
    requires b.stack == a.stack + [f] && f.attrs == a.attrs && f.methods == a.methods && f.mapper.Keys == a.scope
    requires b.constants == a.constants && b.classes == a.classes
    requires b.attrs == a.attrs && b.methods == [] && b.scope == a.scope
    ensures Opened(a, b)
  {
    assert b.stack[..|a.stack|] == a.stack;
  }

  /** Opening a scope right after a step that changed only the registry, the arena cells, the scope and the classes. */
  lemma OpenedAfter(a: Snap, b: Snap, c: Snap)
    requires Grown(a, b) && b.size == a.size && b.attrs == a.attrs && b.methods == a.methods
    requires b.constants == a.constants && Opened(b, c)
    ensures Opened(a, c)
  {
  }

  /** A class scope opened, walked and closed again: the outer attributes, methods and stacks are back. */
  lemma ClassScope(a: Snap, b: Snap, c: Snap, d: Snap)
    requires Opened(a, b) && Grown(b, c)
    requires |c.stack| > 0
    requires Closed(c, d)
    ensures Grown(a, d) && d.attrs == a.attrs && d.methods == a.methods && d.scope == b.scope
    ensures d.constants == a.constants || a.level == 0
  {
    assert c.stack == b.stack;
  }

  // ---------------------------------------------------------------------------
  // The kinds `generic_visit` only walks through
  // ---------------------------------------------------------------------------

  /** Kinds with a single list of children and no visitor of their own. */
  predicate HasChildList(n: Node) {
    n.Module? || n.Tuple? || n.List? || n.Other?
  }

  function ChildList(n: Node): (cs: seq<Node>)
    requires HasChildList(n)
    ensures SizeList(cs) < Size(n)
  {
    match n
    case Module(b) => b
    case Tuple(es) => es
    case List(es) => es
    case Other(_, ps) => ps
  }

  function WithChildList(n: Node, cs: seq<Node>): (r: Node)
    requires HasChildList(n)
    ensures HasChildList(r) && ChildList(r) == cs
  {
    match n
    case Module(_) => Module(cs)
    case Tuple(_) => Tuple(cs)
    case List(_) => List(cs)
    case Other(tag, _) => Other(tag, cs)
  }

  lemma ChildListSlots(n: Node, size: nat)
    requires HasChildList(n)
    ensures SlotsBelow(n, size) <==> AllSlotsBelow(ChildList(n), size)
  {
  }

  /** The expression `visit_Str` builds indexes only the arena cell it adds. */
  lemma EncodedLiteralSlots(v: StrValue, slot: nat, size: nat)
    requires v.Text? ==> slot < size
    ensures SlotsBelow(EncodedLiteral(v, slot), size)
  {
    match v
    case Bytes(b) =>
      StringLiteralSlots(b, size);
    case Text(t) =>
      StringLiteralSlots(Utf8Encode(t), size);
      var r := EncodedLiteral(v, slot);
      assert SlotsBelow(r.func, size);
      assert forall x :: x in r.args ==> x == Str(Bytes(Utf8Name));
    case Opaque =>
  }

  lemma StringLiteralSlots(b: seq<byte>, size: nat)
    ensures SlotsBelow(StringLiteral(b), size)
  {
    var r := StringLiteral(b);
    var l := r.args[0].args[0];
    EncodedLiteralHasNoStringConstant(b);
    assert SlotsBelow(l, size);
    assert forall x :: x in r.args[0].args ==> x == l;
    assert SlotsBelow(r.args[0], size);
    assert forall x :: x in r.args ==> x == r.args[0];
  }

  /** The re-export statement indexes no arena cell. */
  lemma SimultaneousRebindingSlots(pairs: Pairs, size: nat)
    ensures AllSlotsBelow(SimultaneousRebinding(pairs), size)
  {
    if pairs != [] {
      var t := Tuple(Names(Exported(pairs)));
      var v := Tuple(Names(Sources(pairs)));
      assert forall x :: x in t.elts ==> x.Name?;
      assert forall x :: x in v.elts ==> x.Name?;
      assert SlotsBelow(t, size) && SlotsBelow(v, size);
      var a := Assign([t], v);
      assert forall x :: x in a.targets ==> x == t;
      assert SlotsBelow(a, size);
      assert forall x :: x in SimultaneousRebinding(pairs) ==> x == a;
    }
  }

  /** A name recorded twice for re-export carries the same alias both times. */
  lemma RecordedConsistent(names: map<string, string>, ps: Pairs)
    requires "self" !in names && AllRecorded(names, ps)
    ensures Consistent(ps)
  {
    forall i, j | 0 <= i < |ps| && 0 <= j < |ps| && ps[i].0 == ps[j].0
      ensures ps[i].1 == ps[j].1
    {
      assert Recorded(names, ps[i]) && Recorded(names, ps[j]);
    }
  }

  class Obfuscator {
    /** The generator and registry shared by every file of the run. */
    const ctx: RunContext
    /** The names of `__builtins__.__dict__`, which are never renamed. */
    const builtins: set<string>

    var level: nat
    /** Attribute names of `self` assigned or defined as methods so far. */
    var attrs: seq<string>
    /** The names renamed in the current class scope (only its keys are consulted). */
    var mapper: map<string, string>
    var classes: Pairs
    var methods: Pairs
    var pending: Pending
    var constants: Pairs
    /** `_attrsStack`, `_methodStack`, `_mapperStack` and `_pendingStack`, which are pushed and popped together. */
    var stack: seq<Frame>
    /** The member names of the tree's `Attribute` nodes, by slot. */
    var arena: seq<string>

    ghost function Snapshot(): Snap
      reads this, ctx
    {
      Snap(ctx.names, |arena|, level, stack,
           constants, classes, attrs, methods, mapper.Keys)
    }

    /** The name `_rename` returns for a name it has seen. */
    ghost function AliasOf(name: string): string
      reads ctx
      requires name == "self" || name in ctx.names
    {
      if name == "self" then "self" else ctx.names[name]
    }

    ghost predicate Valid()
      reads this, ctx
    {
      ctx.Valid() && "self" !in ctx.names && Tracks(ctx.names)
    }

    /**
      The per-file state agrees with the registry `names`: every name renamed in
      a scope is registered, every recorded pair carries the registry's alias,
      the four stacks move together, deferred slots index the arena, and only
      public names are queued for re-export as methods.
     */
    ghost predicate Tracks(names: map<string, string>)
      reads this
    {
      && mapper.Keys <= names.Keys
      && SlotsIn(pending, |arena|)
      && AllRecorded(names, constants) && AllRecorded(names, classes) && AllRecorded(names, methods)
      && AllPublic(methods)
      && (forall i :: 0 <= i < |stack| ==> FrameTracks(names, stack[i], |arena|))
    }

    lemma TracksStable(m1: map<string, string>, m2: map<string, string>)
      requires Tracks(m1) && Keeps(m1, m2)
      ensures Tracks(m2)
    {
      forall i | 0 <= i < |stack|
        ensures FrameTracks(m2, stack[i], |arena|)
      {
        AllRecordedStable(m1, m2, stack[i].methods);
      }
      AllRecordedStable(m1, m2, constants);
      AllRecordedStable(m1, m2, classes);
      AllRecordedStable(m1, m2, methods);
    }

    /** The state `__init__` leaves (obfuscator.py:17-29), before the arena is filled. */
    ghost predicate Fresh()
      reads this
    {
      && level == 0 && attrs == [] && mapper == map[] && classes == [] && methods == []
      && pending == map[] && constants == []
      && stack == []
    }

    /** `__init__` (obfuscator.py:17-29). */
    constructor (ctx: RunContext, builtins: set<string>)
      requires ctx.Valid() && "self" !in ctx.names
      ensures Valid() && Fresh()
      ensures this.ctx == ctx && this.builtins == builtins && arena == []
    {
      this.ctx := ctx;
      this.builtins := builtins;
      level := 0;
      attrs := [];
      mapper := map[];
      classes := [];
      methods := [];
      pending := map[];
      constants := [];
      stack := [];
      arena := [];
    }

    /**
      `_rename` (obfuscator.py:45-58): 'self' is kept; any other name gets its
      registry alias, drawn on first sight and redrawn while it is a keyword the
      first time the name is seen in this scope, when the attribute reads
      deferred under the name are patched to the alias.
     */
    method Rename(name: string) returns (alias: string)
      requires Valid()
      modifies this`mapper, this`pending, this`arena, ctx
      ensures Valid() && Grown(old(Snapshot()), Snapshot()) && |arena| == |old(arena)|
      ensures Recorded(ctx.names, (name, alias))
      ensures name == "self" ==> alias == "self" && unchanged(this, ctx)
      ensures name != "self" ==> ctx.names == old(ctx.names)[name := alias]
      ensures name != "self" ==> alias !in ctx.keywords
      ensures name != "self" ==> forall n :: n in ctx.names && n != name ==> ctx.names[n] != alias
      ensures name in old(ctx.names) ==> alias == old(ctx.names)[name] && ctx.current == old(ctx.current)
      ensures name != "self" && name !in old(ctx.names) ==>
        && alias == Reverse(NextFree(ctx.keywords, old(ctx.current)))
        && ctx.current == Succ(NextFree(ctx.keywords, old(ctx.current)))
        && alias !in old(ctx.Issued)
      ensures mapper.Keys == old(mapper).Keys + (if name == "self" then {} else {name})
      ensures name in old(mapper) ==> mapper == old(mapper) && pending == old(pending) && arena == old(arena)
      ensures name != "self" && name !in old(mapper) ==>
        && mapper == old(mapper)[name := if name in old(ctx.names) then old(ctx.names[name]) else Reverse(old(ctx.current))]
        && pending == old(pending) - {name}
        && arena == Patched(old(arena), PendingOf(old(pending), name), alias)
    {
      if name == "self" {
        return "self";
      }
      ghost var names0 := Lookup(name);
      if name !in mapper {
        ghost var scope := mapper;
        EnterScope(name, names0);
        assert mapper.Keys == scope.Keys + {name};
      }
      alias := ctx.names[name];
    }

    /** obfuscator.py:48-49: a name the registry lacks is given the next alias, which may still be a keyword. */
    method Lookup(name: string) returns (ghost names0: map<string, string>)
      requires Valid() && name != "self"
      modifies ctx
      ensures names0 == old(ctx.names) && Tracks(names0)
      ensures ctx.ValidBut(name) && "self" !in ctx.names && ctx.names == names0[name := ctx.names[name]]
      ensures old(ctx.Issued) <= ctx.Issued
      ensures name in names0 ==> ctx.names == names0 && ctx.names[name] !in ctx.keywords && ctx.current == old(ctx.current)
      ensures name !in names0 ==>
        && ctx.names[name] == Reverse(old(ctx.current)) && ctx.current == Succ(old(ctx.current))
        && ctx.names[name] !in old(ctx.Issued)
        && NextFree(ctx.keywords, old(ctx.current))
           == if ctx.names[name] in ctx.keywords then NextFree(ctx.keywords, ctx.current) else old(ctx.current)
    {
      names0 := ctx.names;
      if name !in ctx.names {
        ctx.Register(name);
      } else {
        assert names0 == names0[name := names0[name]];
      }
    }

    /**
      obfuscator.py:50-57, the first time `name` is renamed in this scope: the
      scope records the alias drawn so far, the alias is redrawn while it is a
      keyword, and the reads deferred under the name are patched to it. The
      registry is `names0` plus the entry for `name`, a keyword only if new.
     */
    method EnterScope(name: string, ghost names0: map<string, string>)
      requires ctx.ValidBut(name) && "self" !in ctx.names && name != "self" && name !in mapper
      requires Tracks(names0) && ctx.names == names0[name := ctx.names[name]]
      requires name in names0 ==> ctx.names == names0 && ctx.names[name] !in ctx.keywords
      modifies this`mapper, this`pending, this`arena, ctx
      ensures Valid() && |arena| == |old(arena)| && Keeps(names0, ctx.names)
      ensures name in ctx.names && ctx.names == names0[name := ctx.names[name]] && ctx.names[name] !in ctx.keywords
      ensures old(ctx.names)[name] in ctx.keywords ==> ctx.names[name] !in old(ctx.Issued)
      ensures old(ctx.names)[name] !in ctx.keywords ==> ctx.names == old(ctx.names) && ctx.current == old(ctx.current)
      ensures old(ctx.names)[name] in ctx.keywords ==>
        && ctx.names[name] == Reverse(NextFree(ctx.keywords, old(ctx.current)))
        && ctx.current == Succ(NextFree(ctx.keywords, old(ctx.current)))
      ensures old(ctx.Issued) <= ctx.Issued
      ensures mapper == old(mapper)[name := old(ctx.names)[name]]
      ensures pending == old(pending) - {name}
      ensures arena == Patched(old(arena), PendingOf(old(pending), name), ctx.names[name])
    {
      var first := ctx.names[name];
      ctx.Redraw(name);
      assert ctx.names == names0[name := ctx.names[name]] by {
        UpdateAgain(names0, name, first, ctx.names[name]);
      }
      TracksStable(names0, ctx.names);
      mapper := mapper[name := first];
      Release(name, ctx.names[name]);
    }

    /** obfuscator.py:54-57: the reads deferred under `name` get `alias` and are forgotten. */
    method Release(name: string, alias: string)
      requires SlotsIn(pending, |arena|)
      modifies this`pending, this`arena
      ensures SlotsIn(pending, |arena|)
      ensures pending == old(pending) - {name}
      ensures arena == Patched(old(arena), PendingOf(old(pending), name), alias)
    {
      if name in pending {
        Patch(pending[name], alias);
        pending := pending - {name};
      } else {
        PatchedNothing(arena, alias);
      }
    }

    /** What the registry guarantees of every alias it holds: a name of letters, no keyword, no other name's. */
    lemma RegisteredAlias(name: string)
      requires Valid() && name in ctx.names
      ensures IsAlias(ctx.names[name]) && ctx.names[name] !in ctx.keywords
      ensures forall n :: n in ctx.names && n != name ==> ctx.names[n] != ctx.names[name]
    {
      assert ctx.names[name] in ctx.Issued;
    }

    /** obfuscator.py:55-56: every deferred read of the name gets the alias. */
    method Patch(slots: seq<nat>, alias: string)
      requires forall j :: 0 <= j < |slots| ==> slots[j] < |arena|
      modifies this`arena
      ensures arena == Patched(old(arena), slots, alias)
    {
      var i := 0;
      while i < |slots|
        invariant 0 <= i <= |slots|
        invariant arena == Patched(old(arena), slots[..i], alias)
      {
        assert slots[..i + 1] == slots[..i] + [slots[i]];
        arena := arena[slots[i] := alias];
        i := i + 1;
      }
      assert slots[..i] == slots;
    }

    /** `_defered` (obfuscator.py:60-64): file the slot under the name it currently reads. */
    method Defer(slot: nat)
      requires Valid() && slot < |arena|
      modifies this`pending
      ensures Valid()
      ensures pending == old(pending)[arena[slot] := PendingOf(old(pending), arena[slot]) + [slot]]
    {
      var name := arena[slot];
      if name !in pending {
        pending := pending[name := []];
      }
      pending := pending[name := pending[name] + [slot]];
    }

    /** `_saveState` (obfuscator.py:66-72): push copies of the scoped fields; start a new class scope. */
    method SaveState()
      requires Valid()
      modifies this`stack, this`methods, this`pending
      ensures Valid() && Opened(old(Snapshot()), Snapshot()) && old(Snapshot()).scope == Snapshot().scope
      ensures stack == old(stack) + [Frame(attrs, old(methods), mapper, old(pending))]
      ensures methods == [] && pending == map[]
    {
      var f := Frame(attrs, methods, mapper, pending);
      stack := stack + [f];
      methods := [];
      pending := map[];
      PushOpened(old(Snapshot()), Snapshot(), f);
    }

    /**
      `_restoreState` (obfuscator.py:74-78): pop the saved attributes, scope and
      methods back; merge the saved pending reads into the current ones, the
      saved list winning on a shared name (`dict.update`).
     */
    method RestoreState()
      requires Valid() && |stack| > 0
      modifies this`stack, this`attrs, this`mapper, this`methods, this`pending
      ensures Valid()
      ensures var top := old(stack[|stack| - 1]);
        && attrs == top.attrs && mapper == top.mapper && methods == top.methods
        && pending == old(pending) + top.pending
      ensures stack == old(stack[..|stack| - 1])
    {
      var top := stack[|stack| - 1];
      assert FrameTracks(ctx.names, top, |arena|);
      SlotsInUnion(pending, top.pending, |arena|);
      attrs, mapper, methods := top.attrs, top.mapper, top.methods;
      pending := pending + top.pending;
      stack := stack[..|stack| - 1];
    }

    // -------------------------------------------------------------------------
    // Leaves of the walk
    // -------------------------------------------------------------------------

    /** The names `visit_Name` never renames: `__`-prefixed ones and builtins (obfuscator.py:154-155). */
    predicate Protected(id: string) {
      Kept(id, builtins)
    }

    /** `visit_Name` (obfuscator.py:153-157). */
    method VisitName(n: Node) returns (r: Node)
      requires Valid() && n.Name?
      modifies this`mapper, this`pending, this`arena, ctx
      ensures Valid() && Grown(old(Snapshot()), Snapshot()) && |arena| == |old(arena)|
      ensures ShapeKept(n, r) && r.Name?
      ensures Protected(n.id) || n.id == "self" ==> r == n && unchanged(this, ctx)
      ensures !Protected(n.id) ==> Recorded(ctx.names, (n.id, r.id))
      ensures Renamed(n, r, ctx.names, builtins)
    {
      if IsDunder(n.id) || n.id in builtins {
        return n;
      }
      var alias := Rename(n.id);
      r := Name(alias);
      if n.id != "self" {
        RegisteredAlias(n.id);
        AliasIsNotSlots(alias);
      }
    }

    /** A new attribute cell at the end of the arena. */
    method AppendCell(cell: string)
      requires Valid()
      modifies this`arena
      ensures Valid() && Grown(old(Snapshot()), Snapshot())
      ensures arena == old(arena) + [cell]
    {
      ghost var size := |arena|;
      arena := arena + [cell];
      forall i | 0 <= i < |stack|
        ensures FrameTracks(ctx.names, stack[i], |arena|)
      {
        FrameTracksGrow(ctx.names, stack[i], size, |arena|);
      }
    }

    /**
      `visit_Str` (obfuscator.py:144-151): a byte string or a unicode string is
      replaced by an expression that computes it; the `decode` member of the
      unicode form takes a new arena cell.
     */
    method VisitStr(n: Node) returns (r: Node)
      requires Valid() && n.Str?
      modifies this`arena
      ensures Valid() && Grown(old(Snapshot()), Snapshot())
      ensures r == EncodedLiteral(n.s, |old(arena)|)
      ensures arena == old(arena) + (if n.s.Text? then [DecodeMember] else [])
      ensures n.s != Opaque ==> Eval(r, arena) == Eval(n, arena)
      ensures SlotsBelow(r, |arena|) && ShapeKept(n, r) && Renamed(n, r, ctx.names, builtins)
    {
      r := EncodedLiteral(n.s, |arena|);
      if n.s.Text? {
        AppendCell(DecodeMember);
      }
      EncodedLiteralSlots(n.s, |old(arena)|, |arena|);
      LiteralRenamed(n.s, |old(arena)|, ctx.names, builtins);
      if n.s != Opaque {
        EncodedLiteralFaithful(n.s, |old(arena)|, arena);
      }
    }

    /** `name.asname = self._rename(name.name)` for every imported name (obfuscator.py:190-191, 246-247). */
    method RenameImports(names: seq<ImportName>) returns (renamed: seq<ImportName>)
      requires Valid()
      modifies this`mapper, this`pending, this`arena, ctx
      ensures Valid() && Grown(old(Snapshot()), Snapshot()) && |arena| == |old(arena)|
      ensures |renamed| == |names|
      ensures forall i :: 0 <= i < |names| ==>
        && renamed[i].name == names[i].name && renamed[i].asname.Some?
        && Recorded(ctx.names, (names[i].name, renamed[i].asname.value))
    {
      renamed := [];
      ghost var start := Snapshot();
      var i := 0;
      while i < |names|
        invariant 0 <= i <= |names| && |renamed| == i
        invariant Valid() && Grown(start, Snapshot()) && |arena| == |old(arena)|
        invariant forall j :: 0 <= j < i ==>
          && renamed[j].name == names[j].name && renamed[j].asname.Some?
          && Recorded(ctx.names, (names[j].name, renamed[j].asname.value))
      {
        ghost var mid := Snapshot();
        var alias := Rename(names[i].name);
        GrownTrans(start, mid, Snapshot());
        renamed := renamed + [ImportName(names[i].name, Some(alias))];
        i := i + 1;
      }
    }

    /** `visit_Import` (obfuscator.py:189-193). */
    method VisitImport(n: Node) returns (r: Node)
      requires Valid() && n.Import?
      modifies this`mapper, this`pending, this`arena, ctx
      ensures Valid() && Grown(old(Snapshot()), Snapshot()) && |arena| == |old(arena)|
      ensures r.Import? && |r.aliases| == |n.aliases|
      ensures forall i :: 0 <= i < |n.aliases| ==>
        && r.aliases[i].name == n.aliases[i].name && r.aliases[i].asname.Some?
        && Recorded(ctx.names, (n.aliases[i].name, r.aliases[i].asname.value))
      ensures Renamed(n, r, ctx.names, builtins)
    {
      var renamed := RenameImports(n.aliases);
      r := Import(renamed);
    }

    /** `visit_ImportFrom` (obfuscator.py:245-249): the module and the level stay as they are. */
    method VisitImportFrom(n: Node) returns (r: Node)
      requires Valid() && n.ImportFrom?
      modifies this`mapper, this`pending, this`arena, ctx
      ensures Valid() && Grown(old(Snapshot()), Snapshot()) && |arena| == |old(arena)|
      ensures r.ImportFrom? && r.source == n.source && r.level == n.level && |r.aliases| == |n.aliases|
      ensures forall i :: 0 <= i < |n.aliases| ==>
        && r.aliases[i].name == n.aliases[i].name && r.aliases[i].asname.Some?
        && Recorded(ctx.names, (n.aliases[i].name, r.aliases[i].asname.value))
      ensures Renamed(n, r, ctx.names, builtins)
    {
      var renamed := RenameImports(n.aliases);
      r := ImportFrom(n.source, renamed, n.level);
    }

    /** `visit_Global` (obfuscator.py:171-173): every declared name is renamed. */
    method VisitGlobal(n: Node) returns (r: Node)
      requires Valid() && n.Global?
      modifies this`mapper, this`pending, this`arena, ctx
      ensures Valid() && Grown(old(Snapshot()), Snapshot()) && |arena| == |old(arena)|
      ensures r.Global? && |r.names| == |n.names|
      ensures forall i :: 0 <= i < |n.names| ==> Recorded(ctx.names, (n.names[i], r.names[i]))
      ensures Renamed(n, r, ctx.names, builtins)
    {
      var names := [];
      ghost var start := Snapshot();
      var i := 0;
      while i < |n.names|
        invariant 0 <= i <= |n.names| && |names| == i
        invariant Valid() && Grown(start, Snapshot()) && |arena| == |old(arena)|
        invariant forall j :: 0 <= j < i ==> Recorded(ctx.names, (n.names[j], names[j]))
      {
        ghost var mid := Snapshot();
        var alias := Rename(n.names[i]);
        GrownTrans(start, mid, Snapshot());
        names := names + [alias];
        i := i + 1;
      }
      r := Global(names);
    }

    // -------------------------------------------------------------------------
    // Assignment targets
    // -------------------------------------------------------------------------

    /**
      `_renameAssignTarget` (obfuscator.py:91-99): `self.<private> = v` records
      the member among the attributes and renames it; a subscript chain is
      followed down to its base; `self[k] = v` raises.
     */
    method RenameAssignTarget(t: Node) returns (ok: bool)
      requires Valid() && (t.Attribute? || t.Subscript?) && SlotsBelow(t, |arena|)
      modifies this`attrs, this`mapper, this`pending, this`arena, ctx
      decreases t
      ensures Valid() && Grown(old(Snapshot()), Snapshot()) && |arena| == |old(arena)|
      ensures ok == !TargetRaises(t)
      ensures SelfPrivate(t, old(arena)) ==>
        && attrs == old(attrs) + [old(arena[t.slot])]
        && Recorded(ctx.names, (old(arena[t.slot]), arena[t.slot]))
      ensures !SelfPrivate(t, old(arena)) ==> unchanged(this, ctx)
    {
      if t.value.Name? {
        if t.value.id == "self" {
          if t.Subscript? {
            return false;
          }
          if IsPrivate(arena[t.slot]) {
            RenameSelfMember(t.slot);
          }
        }
        ok := true;
      } else if t.value.Subscript? {
        ok := RenameAssignTarget(t.value);
      } else {
        ok := true;
      }
    }

    /** obfuscator.py:95-97: `self.<private> = v` records the member name and renames it in place. */
    method RenameSelfMember(slot: nat)
      requires Valid() && slot < |arena|
      modifies this`attrs, this`mapper, this`pending, this`arena, ctx
      ensures Valid() && Grown(old(Snapshot()), Snapshot()) && |arena| == |old(arena)|
      ensures attrs == old(attrs) + [old(arena[slot])]
      ensures Recorded(ctx.names, (old(arena[slot]), arena[slot]))
    {
      var member := arena[slot];
      attrs := attrs + [member];
      var alias := Rename(member);
      arena := arena[slot := alias];
    }

    /**
      `_renameAssignTuple` (obfuscator.py:80-89): at module level every name of
      the tuple, nested tuples included and private names included, is recorded
      as a constant with its alias; member targets go to `_renameAssignTarget`.
     */
    method RenameAssignTuple(t: Node) returns (ok: bool, ghost recorded: Pairs)
      requires Valid() && t.Tuple? && SlotsBelow(t, |arena|)
      modifies this`attrs, this`mapper, this`pending, this`arena, this`constants, ctx
      decreases t, 0
      ensures Valid() && Grown(old(Snapshot()), Snapshot()) && |arena| == |old(arena)|
      ensures ok == !RaisesUpTo(t, |t.elts|)
      ensures constants == old(constants) + recorded
      ensures level > 0 ==> recorded == []
      ensures ok && level == 0 ==> Exported(recorded) == NamesUpTo(t, |t.elts|)
    {
      recorded := [];
      ghost var start := Snapshot();
      var i := 0;
      while i < |t.elts|
        invariant 0 <= i <= |t.elts|
        invariant Valid() && Grown(start, Snapshot()) && |arena| == |old(arena)|
        invariant constants == old(constants) + recorded
        invariant level > 0 ==> recorded == []
        invariant level == 0 ==> Exported(recorded) == NamesUpTo(t, i)
        invariant !RaisesUpTo(t, i)
      {
        assert t.elts[i] in t.elts;
        ghost var mid := Snapshot();
        var inner, rec := RenameAssignElement(t.elts[i]);
        GrownTrans(start, mid, Snapshot());
        ExportedConcat(recorded, rec);
        recorded := recorded + rec;
        if !inner {
          RaisesUpToMono(t, i + 1, |t.elts|);
          return false, recorded;
        }
        i := i + 1;
      }
      ok := true;
    }

    /** One element of a tuple target (obfuscator.py:81-89). */
    method RenameAssignElement(e: Node) returns (ok: bool, ghost recorded: Pairs)
      requires Valid() && SlotsBelow(e, |arena|)
      modifies this`attrs, this`mapper, this`pending, this`arena, this`constants, ctx
      decreases e, 1
      ensures Valid() && Grown(old(Snapshot()), Snapshot()) && |arena| == |old(arena)|
      ensures ok == !ElementRaises(e)
      ensures constants == old(constants) + recorded
      ensures level > 0 ==> recorded == []
      ensures ok && level == 0 ==> Exported(recorded) == ElementNames(e)
    {
      recorded := [];
      ok := true;
      if e.Name? {
        if level == 0 {
          var alias := RecordConstant(e.id);
          recorded := [(e.id, alias)];
        }
      } else if e.Tuple? {
        ok, recorded := RenameAssignTuple(e);
      } else if e.Attribute? || e.Subscript? {
        ok := RenameAssignTarget(e);
      }
    }

    /**
      obfuscator.py:176-185: the renaming and recording that the targets of one
      assignment call for, before the assignment is walked.
     */
    method RenameTargets(ts: seq<Node>) returns (ok: bool, ghost recorded: Pairs)
      requires Valid() && AllSlotsBelow(ts, |arena|)
      modifies this`attrs, this`mapper, this`pending, this`arena, this`constants, ctx
      ensures Valid() && Grown(old(Snapshot()), Snapshot()) && |arena| == |old(arena)|
      ensures ok == !TargetsRaise(ts)
      ensures constants == old(constants) + recorded
      ensures level > 0 ==> recorded == []
      ensures ok && level == 0 ==> Exported(recorded) == AssignedNames(ts)
    {
      recorded := [];
      ghost var start := Snapshot();
      var i := 0;
      while i < |ts|
        invariant 0 <= i <= |ts|
        invariant Valid() && Grown(start, Snapshot()) && |arena| == |old(arena)|
        invariant !TargetsRaise(ts[..i])
        invariant constants == old(constants) + recorded
        invariant level > 0 ==> recorded == []
        invariant level == 0 ==> Exported(recorded) == AssignedNames(ts[..i])
      {
        assert ts[i] in ts;
        ghost var mid := Snapshot();
        var one, rec := RenameTarget(ts[i]);
        GrownTrans(start, mid, Snapshot());
        ExportedConcat(recorded, rec);
        recorded := recorded + rec;
        if !one {
          TargetsRaiseSome(ts);
          return false, recorded;
        }
        assert ts[..i + 1][..i] == ts[..i] && ts[..i + 1][i] == ts[i];
        assert !TargetsRaise(ts[..i + 1]);
        i := i + 1;
      }
      assert ts[..i] == ts;
      ok := true;
    }

    /** `self._constants.append((name, self._rename(name)))` (obfuscator.py:85, 183), at module level only. */
    method RecordConstant(id: string) returns (alias: string)
      requires Valid() && level == 0
      modifies this`constants, this`mapper, this`pending, this`arena, ctx
      ensures Valid() && Grown(old(Snapshot()), Snapshot()) && |arena| == |old(arena)|
      ensures constants == old(constants) + [(id, alias)] && Recorded(ctx.names, (id, alias))
    {
      alias := Rename(id);
      constants := constants + [(id, alias)];
    }

    /**
      One target of an assignment (obfuscator.py:177-185): a public name is
      recorded as a constant at module level; a tuple or a member target is
      handled as `_renameAssignTuple` and `_renameAssignTarget` do.
     */
    method RenameTarget(t: Node) returns (ok: bool, ghost recorded: Pairs)
      requires Valid() && SlotsBelow(t, |arena|)
      modifies this`attrs, this`mapper, this`pending, this`arena, this`constants, ctx
      ensures Valid() && Grown(old(Snapshot()), Snapshot()) && |arena| == |old(arena)|
      ensures ok == !ElementRaises(t)
      ensures constants == old(constants) + recorded
      ensures level > 0 ==> recorded == []
      ensures ok && level == 0 ==> Exported(recorded) == TargetNames(t)
    {
      if t.Name? {
        recorded := [];
        ok := true;
        if !IsPrivate(t.id) && level == 0 {
          var alias := RecordConstant(t.id);
          recorded := [(t.id, alias)];
        }
      } else {
        ok, recorded := RenameAssignElement(t);
      }
    }

    // -------------------------------------------------------------------------
    // The walk
    // -------------------------------------------------------------------------

    /**
      `visit` on any node of the modelled kinds: the node's own `visit_*` where
      the source has one, `generic_visit` otherwise. The walk stops with `ok ==
      false` where the source raises.
     */
    method Visit(n: Node) returns (r: Node, ok: bool)
      requires Valid() && SlotsBelow(n, |arena|)
      modifies this, ctx
      decreases Size(n), 6
      ensures Valid() && |old(arena)| <= |arena| && SlotsBelow(r, |arena|)
      ensures ok ==> Grown(old(Snapshot()), Snapshot()) && ShapeKept(n, r) && Listed(n, r, Snapshot())
      ensures ok ==> Renamed(n, r, ctx.names, builtins)
      ensures ok && n.Module? ==> AllListed(n.body, r.body, Snapshot())
    {
      ok := true;
      if n.Name? {
        r := VisitName(n);
      } else if n.Str? {
        r := VisitStr(n);
      } else if n.Global? {
        r := VisitGlobal(n);
      } else if n.Import? {
        r := VisitImport(n);
      } else if n.ImportFrom? {
        r := VisitImportFrom(n);
      } else {
        r, ok := VisitCompound(n);
      }
    }

    /** The kinds whose visit walks children. */
    method VisitCompound(n: Node) returns (r: Node, ok: bool)
      requires Valid() && SlotsBelow(n, |arena|)
      requires !(n.Name? || n.Str? || n.Global? || n.Import? || n.ImportFrom?)
      modifies this, ctx
      decreases Size(n), 5
      ensures Valid() && |old(arena)| <= |arena| && SlotsBelow(r, |arena|)
      ensures ok ==> Grown(old(Snapshot()), Snapshot()) && ShapeKept(n, r) && Listed(n, r, Snapshot())
      ensures ok ==> Renamed(n, r, ctx.names, builtins)
      ensures ok && n.Module? ==> AllListed(n.body, r.body, Snapshot())
    {
      if n.Attribute? {
        r, ok := VisitAttribute(n);
      } else if n.Assign? || n.FunctionDef? || n.ClassDef? {
        r, ok := VisitDefinition(n);
      } else if n.Block? {
        r, ok := VisitBlock(n);
      } else if n.Subscript? {
        r, ok := VisitSubscript(n);
      } else if n.Call? {
        r, ok := VisitCall(n);
      } else if HasChildList(n) {
        r, ok := GenericVisit(n);
      } else {
        r, ok := n, true;
      }
    }

    /** The statements that put names on the re-export lists: assignments, function and class definitions. */
    method VisitDefinition(n: Node) returns (r: Node, ok: bool)
      requires Valid() && SlotsBelow(n, |arena|) && (n.Assign? || n.FunctionDef? || n.ClassDef?)
      modifies this, ctx
      decreases Size(n), 4
      ensures Valid() && |old(arena)| <= |arena| && SlotsBelow(r, |arena|)
      ensures ok ==> Grown(old(Snapshot()), Snapshot()) && ShapeKept(n, r) && Listed(n, r, Snapshot())
      ensures ok ==> Renamed(n, r, ctx.names, builtins)
    {
      if n.Assign? {
        ghost var recorded;
        r, ok, recorded := VisitAssign(n);
        if ok && level == 0 {
          ExportedConcat(old(constants), recorded);
          ExportedPrefix(old(constants) + recorded, constants);
        }
      } else if n.FunctionDef? {
        r, ok := VisitFunctionDef(n);
        if ok && !IsPrivate(n.name) {
          assert methods[|old(methods)|] == (n.name, r.name);
        }
      } else {
        ghost var visited, rebound;
        r, ok, visited, rebound := VisitClassDef(n);
        if ok && !IsPrivate(n.name) {
          assert classes[|old(classes)|] == (n.name, r.name);
        }
      }
    }

    /** `generic_visit` over a list field: each element is visited in order. */
    method VisitList(ns: seq<Node>, ghost bound: nat) returns (rs: seq<Node>, ok: bool)
      requires Valid() && AllSlotsBelow(ns, |arena|)
      requires forall x :: x in ns ==> Size(x) < bound
      modifies this, ctx
      decreases bound, 0
      ensures Valid() && |old(arena)| <= |arena| && AllSlotsBelow(rs, |arena|)
      ensures ok ==> Grown(old(Snapshot()), Snapshot()) && AllShapeKept(ns, rs) && AllListed(ns, rs, Snapshot())
      ensures ok ==> AllRenamed(ns, rs, ctx.names, builtins)
    {
      rs := [];
      ghost var start := Snapshot();
      var i := 0;
      while i < |ns|
        invariant 0 <= i <= |ns| && |rs| == i
        invariant Valid() && |old(arena)| <= |arena|
        invariant AllSlotsBelow(ns, |arena|) && AllSlotsBelow(rs, |arena|)
        invariant Grown(start, Snapshot())
        invariant WalkedUpTo(ns, rs, i, Snapshot(), builtins)
      {
        assert ns[i] in ns;
        ghost var size := |arena|;
        ghost var mid := Snapshot();
        var x, one := Visit(ns[i]);
        AllSlotsBelowMono(ns, size, |arena|);
        AllSlotsBelowMono(rs, size, |arena|);
        if !one {
          return rs, false;
        }
        GrownTrans(start, mid, Snapshot());
        WalkedStep(ns, rs, i, x, mid, Snapshot(), builtins);
        rs := rs + [x];
        i := i + 1;
      }
      WalkedAll(ns, rs, Snapshot(), builtins);
      ok := true;
    }

    /** `generic_visit` of a module, a tuple, a list or a kind outside the model. */
    method GenericVisit(n: Node) returns (r: Node, ok: bool)
      requires Valid() && HasChildList(n) && SlotsBelow(n, |arena|)
      modifies this, ctx
      decreases Size(n), 3
      ensures Valid() && |old(arena)| <= |arena| && SlotsBelow(r, |arena|)
      ensures ok ==> Grown(old(Snapshot()), Snapshot()) && ShapeKept(n, r)
      ensures ok ==> HasChildList(r) && AllListed(ChildList(n), ChildList(r), Snapshot())
      ensures ok ==> Renamed(n, r, ctx.names, builtins)
    {
      ChildListSlots(n, |arena|);
      SizeListBounds(ChildList(n), Size(n));
      var cs;
      cs, ok := VisitList(ChildList(n), Size(n));
      r := WithChildList(n, cs);
      ChildListSlots(r, |arena|);
    }

    /** `generic_visit` of a subscript: the value, then the index. */
    method VisitSubscript(n: Node) returns (r: Node, ok: bool)
      requires Valid() && n.Subscript? && SlotsBelow(n, |arena|)
      modifies this, ctx
      decreases Size(n), 3
      ensures Valid() && |old(arena)| <= |arena| && SlotsBelow(r, |arena|)
      ensures ok ==> Grown(old(Snapshot()), Snapshot()) && r.Subscript? && Renamed(n, r, ctx.names, builtins)
    {
      ghost var start := Snapshot();
      var value, slice;
      value, ok := Visit(n.value);
      if !ok {
        SlotsBelowMono(n, |old(arena)|, |arena|);
        return n, false;
      }
      ghost var mid := Snapshot();
      ghost var size := |arena|;
      SlotsBelowMono(n.slice, |old(arena)|, |arena|);
      slice, ok := Visit(n.slice);
      SlotsBelowMono(value, size, |arena|);
      r := Subscript(value, slice);
      if ok {
        GrownTrans(start, mid, Snapshot());
        RenamedKeeps(n.value, value, mid.names, ctx.names, builtins);
      }
    }

    /** `generic_visit` of a call: the callee, then the arguments. */
    method VisitCall(n: Node) returns (r: Node, ok: bool)
      requires Valid() && n.Call? && SlotsBelow(n, |arena|)
      modifies this, ctx
      decreases Size(n), 3
      ensures Valid() && |old(arena)| <= |arena| && SlotsBelow(r, |arena|)
      ensures ok ==> Grown(old(Snapshot()), Snapshot()) && r.Call? && Renamed(n, r, ctx.names, builtins)
    {
      ghost var start := Snapshot();
      var func, args;
      func, ok := Visit(n.func);
      if !ok {
        SlotsBelowMono(n, |old(arena)|, |arena|);
        return n, false;
      }
      ghost var mid := Snapshot();
      ghost var size := |arena|;
      AllSlotsBelowMono(n.args, |old(arena)|, |arena|);
      SizeListBounds(n.args, Size(n));
      args, ok := VisitList(n.args, Size(n));
      SlotsBelowMono(func, size, |arena|);
      r := Call(func, args);
      if ok {
        GrownTrans(start, mid, Snapshot());
        RenamedKeeps(n.func, func, mid.names, ctx.names, builtins);
      }
    }

    /**
      `visit_If`, `visit_For`, `visit_With`, `visit_While`, `visit_TryExcept`,
      `visit_TryFinally`, `visit_ExceptHandler` (obfuscator.py:132-136 and
      alike): the walk of the statement one level deeper.
     */
    method VisitBlock(n: Node) returns (r: Node, ok: bool)
      requires Valid() && n.Block? && SlotsBelow(n, |arena|)
      modifies this, ctx
      decreases Size(n), 3
      ensures Valid() && |old(arena)| <= |arena| && SlotsBelow(r, |arena|)
      ensures ok ==> Grown(old(Snapshot()), Snapshot()) && constants == old(constants)
      ensures ok ==> r.Block? && r.kind == n.kind && |r.parts| == |n.parts| && Renamed(n, r, ctx.names, builtins)
    {
      ghost var start := Snapshot();
      level := level + 1;
      SizeListBounds(n.parts, Size(n));
      var parts;
      parts, ok := VisitList(n.parts, Size(n));
      if !ok {
        SlotsBelowMono(n, |old(arena)|, |arena|);
        return n, false;
      }
      level := level - 1;
      GrownInside(start, Snapshot());
      r := Block(n.kind, parts);
    }

    /**
      `visit_Attribute` (obfuscator.py:229-237): a member read on `self` is
      renamed or deferred; then the receiver is walked.
     */
    method VisitAttribute(n: Node) returns (r: Node, ok: bool)
      requires Valid() && n.Attribute? && SlotsBelow(n, |arena|)
      modifies this, ctx
      decreases Size(n), 3
      ensures Valid() && |old(arena)| <= |arena| && SlotsBelow(r, |arena|)
      ensures ok ==> Grown(old(Snapshot()), Snapshot()) && r.Attribute? && r.slot == n.slot && Renamed(n, r, ctx.names, builtins)
      ensures n.value == Name("self") ==> ok && r == n
      ensures n.value == Name("self") ==> var m := old(arena[n.slot]);
        if m !in old(attrs) && m !in old(mapper) then
          && pending == old(pending)[m := PendingOf(old(pending), m) + [n.slot]]
          && arena == old(arena) && mapper == old(mapper)
        else
          && Recorded(ctx.names, (m, arena[n.slot]))
          && (m in old(mapper) ==> arena == old(arena)[n.slot := arena[n.slot]] && pending == old(pending))
    {
      if n.value == Name("self") {
        ghost var start := Snapshot();
        ReadSelfMember(n.slot);
        ghost var mid := Snapshot();
        var v := VisitName(n.value);
        GrownTrans(start, mid, Snapshot());
        return n, true;
      }
      var v;
      v, ok := Visit(n.value);
      r := Attribute(v, n.slot);
    }

    /**
      obfuscator.py:230-235, a read `self.<member>`: renamed at once when the
      member is a known attribute or already renamed in this scope, filed under
      its name until that name is renamed otherwise.
     */
    method ReadSelfMember(slot: nat)
      requires Valid() && slot < |arena|
      modifies this`mapper, this`pending, this`arena, ctx
      ensures Valid() && Grown(old(Snapshot()), Snapshot()) && |arena| == |old(arena)|
      ensures var m := old(arena[slot]);
        if m !in old(attrs) && m !in old(mapper) then
          && pending == old(pending)[m := PendingOf(old(pending), m) + [slot]]
          && arena == old(arena) && mapper == old(mapper) && unchanged(ctx)
        else
          && Recorded(ctx.names, (m, arena[slot]))
          && (m in old(mapper) ==> arena == old(arena)[slot := arena[slot]] && pending == old(pending))
    {
      var member := arena[slot];
      if member !in attrs && member !in mapper {
        Defer(slot);
      } else {
        var alias := Rename(member);
        arena := arena[slot := alias];
      }
    }

    /**
      `visit_Assign` (obfuscator.py:175-187): the targets are renamed and, at
      module level, recorded; then the targets and the value are walked.
     */
    method VisitAssign(n: Node) returns (r: Node, ok: bool, ghost recorded: Pairs)
      requires Valid() && n.Assign? && SlotsBelow(n, |arena|)
      modifies this, ctx
      decreases Size(n), 3
      ensures Valid() && |old(arena)| <= |arena| && SlotsBelow(r, |arena|)
      ensures ok ==> Grown(old(Snapshot()), Snapshot()) && ShapeKept(n, r)
      ensures ok ==> old(constants) + recorded <= constants
      ensures old(level) > 0 ==> recorded == []
      ensures ok && old(level) == 0 ==> Exported(recorded) == AssignedNames(n.targets)
      ensures TargetsRaise(n.targets) ==> !ok
      ensures ok ==> Renamed(n, r, ctx.names, builtins)
    {
      ghost var start := Snapshot();
      ok, recorded := RenameTargets(n.targets);
      if !ok {
        return n, false, recorded;
      }
      ghost var mid := Snapshot();
      r, ok := GenericVisitAssign(n);
      if ok {
        GrownTrans(start, mid, Snapshot());
      }
    }

    /** `self.generic_visit(node)` on an assignment (obfuscator.py:186): the targets, then the value. */
    method GenericVisitAssign(n: Node) returns (r: Node, ok: bool)
      requires Valid() && n.Assign? && SlotsBelow(n, |arena|)
      modifies this, ctx
      decreases Size(n), 2
      ensures Valid() && |old(arena)| <= |arena| && SlotsBelow(r, |arena|)
      ensures ok ==> Grown(old(Snapshot()), Snapshot()) && ShapeKept(n, r) && Renamed(n, r, ctx.names, builtins)
    {
      ghost var start := Snapshot();
      SizeListBounds(n.targets, Size(n));
      var targets, value;
      targets, ok := VisitList(n.targets, Size(n));
      if !ok {
        SlotsBelowMono(n, |old(arena)|, |arena|);
        return n, false;
      }
      ghost var mid := Snapshot();
      ghost var size := |arena|;
      SlotsBelowMono(n.value, |old(arena)|, |arena|);
      value, ok := Visit(n.value);
      if !ok {
        SlotsBelowMono(n, |old(arena)|, |arena|);
        return n, false;
      }
      GrownTrans(start, mid, Snapshot());
      AllSlotsBelowMono(targets, size, |arena|);
      AllRenamedKeeps(n.targets, targets, mid.names, ctx.names, builtins);
      r := Assign(targets, value);
    }

    /** obfuscator.py:252-260: the function's own name, then `**kwarg`, then `*vararg`. */
    method RenameSignature(n: Node) returns (name: string, kwarg: Option<string>, vararg: Option<string>)
      requires Valid() && n.FunctionDef?
      modifies this`attrs, this`methods, this`mapper, this`pending, this`arena, ctx
      ensures Valid() && Grown(old(Snapshot()), Snapshot()) && |arena| == |old(arena)|
      ensures IsDunder(n.name) ==> name == n.name && attrs == old(attrs)
      ensures !IsDunder(n.name) ==> attrs == old(attrs) + [n.name] && Recorded(ctx.names, (n.name, name))
      ensures methods == old(methods) + (if IsPrivate(n.name) then [] else [(n.name, name)])
      ensures kwarg.Some? == n.arguments.kwarg.Some?
      ensures kwarg.Some? ==> Recorded(ctx.names, (n.arguments.kwarg.value, kwarg.value))
      ensures vararg.Some? == n.arguments.vararg.Some?
      ensures vararg.Some? ==> Recorded(ctx.names, (n.arguments.vararg.value, vararg.value))
    {
      ghost var start := Snapshot();
      name := RenameFunctionName(n.name);
      ghost var named := Snapshot();
      kwarg := RenameOptional(n.arguments.kwarg);
      ghost var kw := Snapshot();
      vararg := RenameOptional(n.arguments.vararg);
      GrownTrans(start, named, kw);
      GrownTrans(start, kw, Snapshot());
    }

    /** obfuscator.py:252-257: a function not spelled `__x` is recorded among the attributes, renamed and, when public, queued for re-export. */
    method RenameFunctionName(id: string) returns (name: string)
      requires Valid()
      modifies this`attrs, this`methods, this`mapper, this`pending, this`arena, ctx
      ensures Valid() && Grown(old(Snapshot()), Snapshot()) && |arena| == |old(arena)|
      ensures IsDunder(id) ==> name == id && attrs == old(attrs)
      ensures !IsDunder(id) ==> attrs == old(attrs) + [id] && Recorded(ctx.names, (id, name))
      ensures methods == old(methods) + (if IsPrivate(id) then [] else [(id, name)])
    {
      name := id;
      if !IsDunder(id) {
        attrs := attrs + [id];
        name := Rename(id);
        if !IsPrivate(id) {
          methods := methods + [(id, name)];
        }
      }
    }

    /** obfuscator.py:258-261: a `**kwargs` or `*args` parameter, when present, is renamed. */
    method RenameOptional(id: Option<string>) returns (r: Option<string>)
      requires Valid()
      modifies this`mapper, this`pending, this`arena, ctx
      ensures Valid() && Grown(old(Snapshot()), Snapshot()) && |arena| == |old(arena)|
      ensures r.Some? == id.Some? && (r.Some? ==> Recorded(ctx.names, (id.value, r.value)))
    {
      r := id;
      if id.Some? {
        var alias := Rename(id.value);
        r := Some(alias);
      }
    }

    /**
      `visit_FunctionDef` (obfuscator.py:251-265): the signature is renamed,
      then the parameters, defaults, body and decorators are walked one level
      deeper.
     */
    method VisitFunctionDef(n: Node) returns (r: Node, ok: bool)
      requires Valid() && n.FunctionDef? && SlotsBelow(n, |arena|)
      modifies this, ctx
      decreases Size(n), 3
      ensures Valid() && |old(arena)| <= |arena| && SlotsBelow(r, |arena|)
      ensures ok ==> Grown(old(Snapshot()), Snapshot()) && r.FunctionDef? && |r.body| == |n.body|
      ensures ok ==> r.arguments.kwarg.Some? == n.arguments.kwarg.Some? && r.arguments.vararg.Some? == n.arguments.vararg.Some?
      ensures ok && r.arguments.kwarg.Some? ==> Recorded(ctx.names, (n.arguments.kwarg.value, r.arguments.kwarg.value))
      ensures ok && r.arguments.vararg.Some? ==> Recorded(ctx.names, (n.arguments.vararg.value, r.arguments.vararg.value))
      ensures ok && IsDunder(n.name) ==> r.name == n.name
      ensures ok && !IsDunder(n.name) ==> Recorded(ctx.names, (n.name, r.name)) && old(attrs) + [n.name] <= attrs
      ensures ok && !IsPrivate(n.name) ==> old(methods) + [(n.name, r.name)] <= methods
      ensures ok ==> Renamed(n, r, ctx.names, builtins)
    {
      ghost var start := Snapshot();
      var name, kwarg, vararg := RenameSignature(n);
      ghost var signed := Snapshot();
      var args, defaults, body, decorators;
      args, defaults, body, decorators, ok := VisitFunctionFields(n);
      if !ok {
        SlotsBelowMono(n, |old(arena)|, |arena|);
        return n, false;
      }
      GrownTrans(start, signed, Snapshot());
      r := FunctionDef(name, Arguments(args, vararg, kwarg, defaults), body, decorators);
    }

    /** obfuscator.py:262-264: the parameters, defaults, body and decorators, walked one level deeper. */
    method VisitFunctionFields(n: Node) returns (args: seq<Node>, defaults: seq<Node>, body: seq<Node>, decorators: seq<Node>, ok: bool)
      requires Valid() && n.FunctionDef? && SlotsBelow(n, |arena|)
      modifies this, ctx
      decreases Size(n), 2
      ensures Valid() && |old(arena)| <= |arena|
      ensures ok ==> Grown(old(Snapshot()), Snapshot()) && |body| == |n.body|
      ensures ok ==> AllSlotsBelow(args, |arena|) && AllSlotsBelow(defaults, |arena|)
      ensures ok ==> AllSlotsBelow(body, |arena|) && AllSlotsBelow(decorators, |arena|)
      ensures ok ==> AllRenamed(n.arguments.args, args, ctx.names, builtins) && AllRenamed(n.arguments.defaults, defaults, ctx.names, builtins)
      ensures ok ==> AllRenamed(n.body, body, ctx.names, builtins) && AllRenamed(n.decorators, decorators, ctx.names, builtins)
    {
      ghost var start := Snapshot();
      level := level + 1;
      SizeListBounds(n.arguments.args, Size(n));
      SizeListBounds(n.arguments.defaults, Size(n));
      SizeListBounds(n.body, Size(n));
      SizeListBounds(n.decorators, Size(n));
      var out;
      out, ok := VisitFields([n.arguments.args, n.arguments.defaults, n.body, n.decorators], Size(n));
      if !ok {
        return [], [], [], [], false;
      }
      level := level - 1;
      GrownInside(start, Snapshot());
      args, defaults, body, decorators := out[0], out[1], out[2], out[3];
    }

    /** `generic_visit` over several list fields of one node, in field order. */
    method VisitFields(fields: seq<seq<Node>>, ghost bound: nat) returns (out: seq<seq<Node>>, ok: bool)
      requires Valid()
      requires forall k :: 0 <= k < |fields| ==> AllSlotsBelow(fields[k], |arena|)
      requires forall k, x :: 0 <= k < |fields| && x in fields[k] ==> Size(x) < bound
      modifies this, ctx
      decreases bound, 1
      ensures Valid() && |old(arena)| <= |arena|
      ensures ok ==> Grown(old(Snapshot()), Snapshot()) && |out| == |fields|
      ensures ok ==> forall k :: 0 <= k < |fields| ==> AllSlotsBelow(out[k], |arena|) && AllShapeKept(fields[k], out[k])
      ensures ok ==> forall k :: 0 <= k < |fields| ==> AllListed(fields[k], out[k], Snapshot())
      ensures ok ==> forall k :: 0 <= k < |fields| ==> AllRenamed(fields[k], out[k], ctx.names, builtins)
    {
      out := [];
      ghost var start := Snapshot();
      var i := 0;
      while i < |fields|
        invariant 0 <= i <= |fields| && |out| == i
        invariant Valid() && |old(arena)| <= |arena| && Grown(start, Snapshot())
        invariant forall k :: 0 <= k < |fields| ==> AllSlotsBelow(fields[k], |arena|)
        invariant forall k :: 0 <= k < i ==> AllSlotsBelow(out[k], |arena|) && AllShapeKept(fields[k], out[k])
        invariant forall k :: 0 <= k < i ==> AllListed(fields[k], out[k], Snapshot())
        invariant forall k :: 0 <= k < i ==> AllRenamed(fields[k], out[k], ctx.names, builtins)
      {
        ghost var mid := Snapshot();
        ghost var size := |arena|;
        var visited, one := VisitList(fields[i], bound);
        if !one {
          return out, false;
        }
        GrownTrans(start, mid, Snapshot());
        forall k | 0 <= k < |fields|
          ensures AllSlotsBelow(fields[k], |arena|)
        {
          AllSlotsBelowMono(fields[k], size, |arena|);
        }
        forall k | 0 <= k < i
          ensures AllSlotsBelow(out[k], |arena|) && AllListed(fields[k], out[k], Snapshot())
          ensures AllRenamed(fields[k], out[k], ctx.names, builtins)
        {
          AllSlotsBelowMono(out[k], size, |arena|);
          ListedGrow(fields[k], out[k], |fields[k]|, mid, Snapshot());
          AllRenamedKeeps(fields[k], out[k], mid.names, ctx.names, builtins);
        }
        out := out + [visited];
        i := i + 1;
      }
      ok := true;
    }

    /**
      `visit_ClassDef` (obfuscator.py:195-221): the class name is renamed and,
      if public, recorded; in a fresh scope the `__slots__` declarations are
      dropped, the bases, body and decorators are walked one level deeper, and
      the public methods recorded in the scope are re-exported at the end of
      the body; then the outer scope is restored.
     */
    method VisitClassDef(n: Node) returns (r: Node, ok: bool, ghost visited: seq<Node>, ghost rebound: Pairs)
      requires Valid() && n.ClassDef? && SlotsBelow(n, |arena|)
      modifies this, ctx
      decreases Size(n), 3
      ensures Valid() && |old(arena)| <= |arena| && SlotsBelow(r, |arena|)
      ensures ok ==> Grown(old(Snapshot()), Snapshot()) && r.ClassDef?
      ensures ok ==> Recorded(ctx.names, (n.name, r.name))
      ensures ok ==> old(classes) + (if IsPrivate(n.name) then [] else [(n.name, r.name)]) <= classes
      ensures ok ==> attrs == old(attrs) && methods == old(methods)
      ensures ok ==> mapper.Keys == old(mapper).Keys + (if n.name == "self" then {} else {n.name})
      ensures ok ==> r.body == visited + SimultaneousRebinding(rebound)
      ensures ok ==> SlotsFree(visited) && AllQueued(SlotsStripped(n.body), visited, rebound)
      ensures ok ==> AllPublic(rebound) && AllRecorded(ctx.names, rebound)
      ensures ok ==> Renamed(n, r, ctx.names, builtins)
    {
      visited, rebound := [], [];
      ghost var start := Snapshot();
      var name := EnterClass(n);
      ghost var entered := Snapshot();
      var bases, body, decorators;
      bases, body, decorators, ok := VisitClassFields(n);
      if !ok {
        SlotsBelowMono(n, |old(arena)|, |arena|);
        return n, false, visited, rebound;
      }
      visited := body;
      ghost var walked := Snapshot();
      var rebinding;
      rebinding, rebound := LeaveClass();
      ClassScope(start, entered, walked, Snapshot());
      r := ClassDef(name, bases, body + rebinding, decorators);
      assert r.body[..|body|] == body;
    }

    /** obfuscator.py:196-201: rename the class, record it if public, and open its scope. */
    method EnterClass(n: Node) returns (name: string)
      requires Valid() && n.ClassDef?
      modifies this, ctx
      ensures Valid() && Opened(old(Snapshot()), Snapshot())
      ensures Recorded(ctx.names, (n.name, name))
      ensures classes == old(classes) + (if IsPrivate(n.name) then [] else [(n.name, name)])
      ensures mapper.Keys == old(mapper).Keys + (if n.name == "self" then {} else {n.name})
    {
      ghost var start := Snapshot();
      name := RenameClass(n.name);
      ghost var named := Snapshot();
      SaveState();
      OpenedAfter(start, named, Snapshot());
    }

    /** obfuscator.py:196-198: the class name is renamed and, when public, recorded for re-export. */
    method RenameClass(id: string) returns (name: string)
      requires Valid()
      modifies this`classes, this`mapper, this`pending, this`arena, ctx
      ensures Valid() && Grown(old(Snapshot()), Snapshot()) && |arena| == |old(arena)|
      ensures Recorded(ctx.names, (id, name))
      ensures classes == old(classes) + (if IsPrivate(id) then [] else [(id, name)])
      ensures mapper.Keys == old(mapper).Keys + (if id == "self" then {} else {id})
    {
      name := Rename(id);
      if !IsPrivate(id) {
        classes := classes + [(id, name)];
      }
    }

    /**
      obfuscator.py:199-216: the class body without its `__slots__`
      declarations, then the bases, body and decorators walked one level deeper.
     */
    method VisitClassFields(n: Node) returns (bases: seq<Node>, body: seq<Node>, decorators: seq<Node>, ok: bool)
      requires Valid() && n.ClassDef? && SlotsBelow(n, |arena|)
      modifies this, ctx
      decreases Size(n), 2
      ensures Valid() && |old(arena)| <= |arena|
      ensures ok ==> Grown(old(Snapshot()), Snapshot()) && constants == old(constants)
      ensures ok ==> AllSlotsBelow(bases, |arena|) && AllSlotsBelow(body, |arena|) && AllSlotsBelow(decorators, |arena|)
      ensures ok ==> SlotsFree(body) && AllQueued(SlotsStripped(n.body), body, methods)
      ensures ok ==> AllRenamed(n.bases, bases, ctx.names, builtins) && AllRenamed(SlotsStripped(n.body), body, ctx.names, builtins)
      ensures ok ==> AllRenamed(n.decorators, decorators, ctx.names, builtins)
    {
      ghost var start := Snapshot();
      var kept := StripSlots(n.body);
      SlotsStrippedBelow(n.body, |arena|);
      SizeListBounds(n.bases, Size(n));
      SizeListBounds(n.body, Size(n));
      SizeListBounds(n.decorators, Size(n));
      SlotsStrippedSize(n.body, Size(n));
      level := level + 1;
      var out;
      out, ok := VisitFields([n.bases, kept, n.decorators], Size(n));
      if !ok {
        return [], [], [], false;
      }
      ListedQueued(kept, out[1], Snapshot());
      level := level - 1;
      GrownInside(start, Snapshot());
      bases, body, decorators := out[0], out[1], out[2];
      SlotsStrippedClean(n.body);
      SlotsFreeKept(kept, body);
    }

    /** obfuscator.py:217-220: re-export the scope's public methods at the end of the body, then close the scope. */
    method LeaveClass() returns (rebinding: seq<Node>, ghost rebound: Pairs)
      requires Valid() && |stack| > 0
      modifies this
      ensures Valid() && unchanged(ctx) && Closed(old(Snapshot()), Snapshot())
      ensures rebound == old(methods) && rebinding == SimultaneousRebinding(rebound)
      ensures AllPublic(rebound) && AllRecorded(ctx.names, rebound) && AllSlotsBelow(rebinding, |arena|)
    {
      rebound := methods;
      rebinding := SimultaneousRebinding(methods);
      SimultaneousRebindingSlots(methods, |arena|);
      RestoreState();
    }

    /**
      `obfuscate` (obfuscator.py:273-277), from the parsed module on: the tree
      is walked, then the module's constants, classes and methods, in that
      order, are re-exported under their original names at the end of its body.
      `cells` holds the member names of the tree's attribute nodes.
     */
    method Obfuscate(tree: Node, cells: seq<string>) returns (result: Option<Node>, ghost visited: seq<Node>, ghost exported: Pairs)
      requires Valid() && Fresh() && tree.Module? && SlotsBelow(tree, |cells|)
      modifies this, ctx
      ensures Valid() && |cells| <= |arena|
      ensures result.Some? ==>
        && result.value.Module? && level == 0
        && result.value.body == visited + SimultaneousRebinding(exported)
        && |visited| == |tree.body|
        && exported == constants + classes + methods
        && AllRecorded(ctx.names, exported) && Consistent(exported)
        && Keeps(old(ctx.names), ctx.names)
    ensures result.Some? ==> forall i :: 0 <= i < |tree.body| ==> var s, v := tree.body[i], visited[i];
      && (s.FunctionDef? && !IsPrivate(s.name) ==> v.FunctionDef? && (s.name, v.name) in exported)
      && (s.ClassDef? && !IsPrivate(s.name) ==> v.ClassDef? && (s.name, v.name) in exported)
      && (s.Assign? ==> forall x :: x in AssignedNames(s.targets) ==> x in Exported(exported))
    ensures result.Some? ==> AllRenamed(tree.body, visited, ctx.names, builtins)
    {
      arena := cells;
      visited, exported := [], [];
      var r, ok := Visit(tree);
      if !ok {
        return None, visited, exported;
      }
      var pairs := constants + classes + methods;
      exported := pairs;
      RecordedConsistent(ctx.names, pairs);
      visited := r.body;
      TopLevelExported(tree.body, visited, Snapshot());
      result := Some(Module(r.body + SimultaneousRebinding(pairs)));
    }
  }
}
