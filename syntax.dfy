/**
  The part of Python 2's abstract syntax tree that the renamer looks at.
  Every kind the walker treats specially has its own constructor; any other
  node is `Other`, which the walker only descends into.

  An `Attribute` node does not hold its member name itself: the name lives in
  the tree's attribute arena (a `seq<string>` kept beside the tree) at index
  `slot`, so that a deferred rename can patch it later, wherever the node sits.
 */
module Syntax {

  type byte = x: int | 0 <= x < 256

  datatype Option<T> = None | Some(value: T)

  /** The statements whose `visit_*` only raises the nesting level around the generic walk. */
  datatype BlockKind = If | For | With | While | TryExcept | TryFinally | ExceptHandler

  /** The payload of a `Str` node. */
  datatype StrValue =
    | Bytes(bytes: seq<byte>)   // a Python 2 `str`
    | Text(text: string)        // a Python 2 `unicode`
    | Opaque                    // anything else (the fall-through branch of `visit_Str`)

  /** An `alias` node of an import: `import name as asname`. */
  datatype ImportName = ImportName(name: string, asname: Option<string>)

  /** An `arguments` node: `vararg` and `kwarg` are plain identifiers, not nodes. */
  datatype Arguments = Arguments(args: seq<Node>, vararg: Option<string>, kwarg: Option<string>, defaults: seq<Node>)

  datatype Node =
    | Module(body: seq<Node>)
    | Name(id: string)
    | Attribute(value: Node, slot: nat)
    | Subscript(value: Node, slice: Node)
    | Tuple(elts: seq<Node>)
    | List(elts: seq<Node>)
    | Num(n: int)
    | Str(s: StrValue)
    | Call(func: Node, args: seq<Node>)
    | Assign(targets: seq<Node>, value: Node)
    | Global(names: seq<string>)
    | Import(aliases: seq<ImportName>)
    | ImportFrom(source: Option<string>, aliases: seq<ImportName>, level: int)
    | FunctionDef(name: string, arguments: Arguments, body: seq<Node>, decorators: seq<Node>)
    | ClassDef(name: string, bases: seq<Node>, body: seq<Node>, decorators: seq<Node>)
    | Block(kind: BlockKind, parts: seq<Node>)
    | Other(tag: string, children: seq<Node>)

  predicate HasPrefix(s: string, p: string) {
    |p| <= |s| && s[..|p|] == p
  }

  /** The module-privacy marker: a leading underscore. */
  predicate IsPrivate(name: string) {
    HasPrefix(name, "_")
  }

  /** The protected spelling the walker never renames: a leading double underscore. */
  predicate IsDunder(name: string) {
    HasPrefix(name, "__")
  }

  /** Every attribute slot of the tree indexes an arena of `size` cells. */
  predicate SlotsBelow(n: Node, size: nat) {
    match n
    case Module(b) => forall x | x in b :: SlotsBelow(x, size)
    case Name(_) => true
    case Attribute(v, s) => s < size && SlotsBelow(v, size)
    case Subscript(v, sl) => SlotsBelow(v, size) && SlotsBelow(sl, size)
    case Tuple(es) => forall x | x in es :: SlotsBelow(x, size)
    case List(es) => forall x | x in es :: SlotsBelow(x, size)
    case Num(_) => true
    case Str(_) => true
    case Call(f, as_) => SlotsBelow(f, size) && forall x | x in as_ :: SlotsBelow(x, size)
    case Assign(ts, v) => SlotsBelow(v, size) && forall x | x in ts :: SlotsBelow(x, size)
    case Global(_) => true
    case Import(_) => true
    case ImportFrom(_, _, _) => true
    case FunctionDef(_, a, b, d) =>
      && (forall x | x in a.args :: SlotsBelow(x, size))
      && (forall x | x in a.defaults :: SlotsBelow(x, size))
      && (forall x | x in b :: SlotsBelow(x, size))
      && (forall x | x in d :: SlotsBelow(x, size))
    case ClassDef(_, bs, b, d) =>
      && (forall x | x in bs :: SlotsBelow(x, size))
      && (forall x | x in b :: SlotsBelow(x, size))
      && (forall x | x in d :: SlotsBelow(x, size))
    case Block(_, ps) => forall x | x in ps :: SlotsBelow(x, size)
    case Other(_, ps) => forall x | x in ps :: SlotsBelow(x, size)
  }

  predicate AllSlotsBelow(ns: seq<Node>, size: nat) {
    forall x :: x in ns ==> SlotsBelow(x, size)
  }

  /** A growing arena keeps every slot in range. */
  lemma SlotsBelowMono(n: Node, size: nat, size': nat)
    requires SlotsBelow(n, size) && size <= size'
    ensures SlotsBelow(n, size')
  {
    match n
    case Module(b) =>
      forall x | x in b { SlotsBelowMono(x, size, size'); }
    case Attribute(v, s) =>
      SlotsBelowMono(v, size, size');
    case Subscript(v, sl) =>
      SlotsBelowMono(v, size, size');
      SlotsBelowMono(sl, size, size');
    case Tuple(es) =>
      forall x | x in es { SlotsBelowMono(x, size, size'); }
    case List(es) =>
      forall x | x in es { SlotsBelowMono(x, size, size'); }
    case Call(f, as_) =>
      SlotsBelowMono(f, size, size');
      forall x | x in as_ { SlotsBelowMono(x, size, size'); }
    case Assign(ts, v) =>
      SlotsBelowMono(v, size, size');
      forall x | x in ts { SlotsBelowMono(x, size, size'); }
    case FunctionDef(_, a, b, d) =>
      forall x | x in a.args { SlotsBelowMono(x, size, size'); }
      forall x | x in a.defaults { SlotsBelowMono(x, size, size'); }
      forall x | x in b { SlotsBelowMono(x, size, size'); }
      forall x | x in d { SlotsBelowMono(x, size, size'); }
    case ClassDef(_, bs, b, d) =>
      forall x | x in bs { SlotsBelowMono(x, size, size'); }
      forall x | x in b { SlotsBelowMono(x, size, size'); }
      forall x | x in d { SlotsBelowMono(x, size, size'); }
    case Block(_, ps) =>
      forall x | x in ps { SlotsBelowMono(x, size, size'); }
    case Other(_, ps) =>
      forall x | x in ps { SlotsBelowMono(x, size, size'); }
    case _ =>
  }

  lemma AllSlotsBelowMono(ns: seq<Node>, size: nat, size': nat)
    requires AllSlotsBelow(ns, size) && size <= size'
    ensures AllSlotsBelow(ns, size')
  {
    forall x | x in ns { SlotsBelowMono(x, size, size'); }
  }

  /** The number of nodes of a tree, the measure the walker's recursion decreases. */
  function Size(n: Node): nat {
    match n
    case Module(b) => 1 + SizeList(b)
    case Name(_) => 1
    case Attribute(v, _) => 1 + Size(v)
    case Subscript(v, sl) => 1 + Size(v) + Size(sl)
    case Tuple(es) => 1 + SizeList(es)
    case List(es) => 1 + SizeList(es)
    case Num(_) => 1
    case Str(_) => 1
    case Call(f, as_) => 1 + Size(f) + SizeList(as_)
    case Assign(ts, v) => 1 + SizeList(ts) + Size(v)
    case Global(_) => 1
    case Import(_) => 1
    case ImportFrom(_, _, _) => 1
    case FunctionDef(_, a, b, d) => 1 + SizeList(a.args) + SizeList(a.defaults) + SizeList(b) + SizeList(d)
    case ClassDef(_, bs, b, d) => 1 + SizeList(bs) + SizeList(b) + SizeList(d)
    case Block(_, ps) => 1 + SizeList(ps)
    case Other(_, ps) => 1 + SizeList(ps)
  }

  function SizeList(ns: seq<Node>): nat {
    if ns == [] then 0 else Size(ns[0]) + SizeList(ns[1..])
  }

  lemma {:induction false} SizeListAppend(a: seq<Node>, b: seq<Node>)
    ensures SizeList(a + b) == SizeList(a) + SizeList(b)
  {
    if a == [] {
      assert a + b == b;
    } else {
      assert (a + b)[1..] == a[1..] + b;
      SizeListAppend(a[1..], b);
    }
  }

  /** Every node of a list is smaller than any bound on the whole list. */
  lemma {:induction false} SizeListBounds(ns: seq<Node>, bound: nat)
    requires SizeList(ns) < bound
    ensures forall x :: x in ns ==> Size(x) < bound
  {
    if ns != [] {
      SizeListBounds(ns[1..], bound);
      assert forall x :: x in ns ==> x == ns[0] || x in ns[1..];
    }
  }

  /** No node of a list is bigger than the whole list. */
  lemma {:induction false} SizeListElems(ns: seq<Node>)
    ensures forall i :: 0 <= i < |ns| ==> Size(ns[i]) <= SizeList(ns)
    decreases |ns|
  {
    if ns != [] {
      SizeListElems(ns[1..]);
      assert forall i :: 1 <= i < |ns| ==> ns[i] == ns[1..][i - 1];
    }
  }

  /** `name = alias`, the statement that re-exposes an original name (obfuscator.py:219, 276). */
  function Rebinding(name: string, alias: string): Node {
    Assign([Name(name)], Name(alias))
  }
}
