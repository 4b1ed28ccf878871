/**
  Removal of `__slots__` declarations from a class body (obfuscator.py:199-214).
  A class that declares `__slots__` lists its attribute names as strings,
  which the renamer does not rewrite, so the declaration is dropped: every
  `__slots__` name target is removed from the class body's assignments, and an
  assignment left with no target is removed from the body.
 */
module Slots {
  import opened Syntax

  const SlotsName: string := "__slots__"

  predicate IsSlotsTarget(t: Node) {
    t == Name(SlotsName)
  }

  /** The targets of one assignment that survive (obfuscator.py:204-210). */
  function TargetsKept(ts: seq<Node>): seq<Node>
    decreases |ts|
  {
    if ts == [] then []
    else
      var last := ts[|ts| - 1];
      TargetsKept(ts[..|ts| - 1]) + (if IsSlotsTarget(last) then [] else [last])
  }

  /** What becomes of one statement of the class body: dropped, or kept with fewer targets. */
  function ItemKept(x: Node): seq<Node> {
    if x.Assign? then
      var ts := TargetsKept(x.targets);
      if ts == [] then [] else [Assign(ts, x.value)]
    else [x]
  }

  /** The class body after the `__slots__` declarations are removed. */
  function SlotsStripped(body: seq<Node>): seq<Node>
    decreases |body|
  {
    if body == [] then [] else SlotsStripped(body[..|body| - 1]) + ItemKept(body[|body| - 1])
  }

  /** A body in which no assignment names `__slots__` (nor is left without targets). */
  predicate SlotsFree(body: seq<Node>) {
    forall i :: 0 <= i < |body| ==> body[i].Assign? ==>
      body[i].targets != [] && forall t :: t in body[i].targets ==> !IsSlotsTarget(t)
  }

  /**
    The loops of obfuscator.py:202-214: strip each assignment's `__slots__`
    targets, then drop the assignments that have none left.
   */
  method StripSlots(body: seq<Node>) returns (kept: seq<Node>)
    ensures kept == SlotsStripped(body)
  {
    kept := [];
    var i := 0;
    while i < |body|
      invariant 0 <= i <= |body|
      invariant kept == SlotsStripped(body[..i])
    {
      var item := body[i];
      if item.Assign? {
        var targets := [];
        var j := 0;
        while j < |item.targets|
          invariant 0 <= j <= |item.targets|
          invariant targets == TargetsKept(item.targets[..j])
        {
          if !IsSlotsTarget(item.targets[j]) {
            targets := targets + [item.targets[j]];
          }
          assert item.targets[..j + 1][..j] == item.targets[..j];
          j := j + 1;
        }
        assert item.targets[..j] == item.targets;
        if targets != [] {
          kept := kept + [Assign(targets, item.value)];
        }
      } else {
        kept := kept + [item];
      }
      assert body[..i + 1][..i] == body[..i];
      i := i + 1;
    }
    assert body[..i] == body;
  }

  // ---------------------------------------------------------------------------
  // Properties
  // ---------------------------------------------------------------------------

  /** A target survives exactly when it is not `__slots__`, and the survivors keep their order. */
  lemma {:induction false} TargetsKeptFilter(ts: seq<Node>)
    ensures forall t :: t in TargetsKept(ts) <==> t in ts && !IsSlotsTarget(t)
    ensures |TargetsKept(ts)| <= |ts|
    decreases |ts|
  {
    if ts != [] {
      TargetsKeptFilter(ts[..|ts| - 1]);
      assert ts == ts[..|ts| - 1] + [ts[|ts| - 1]];
    }
  }

  /** An assignment disappears exactly when all of its targets were `__slots__`. */
  lemma {:induction false} TargetsKeptEmpty(ts: seq<Node>)
    ensures TargetsKept(ts) == [] <==> forall t :: t in ts ==> IsSlotsTarget(t)
  {
    TargetsKeptFilter(ts);
    if TargetsKept(ts) != [] {
      assert TargetsKept(ts)[0] in TargetsKept(ts);
    }
  }

  /** Stripping works statement by statement: the kept statements stay in their order. */
  lemma {:induction false} SlotsStrippedAppend(a: seq<Node>, b: seq<Node>)
    ensures SlotsStripped(a + b) == SlotsStripped(a) + SlotsStripped(b)
    decreases |b|
  {
    if b != [] {
      var b' := b[..|b| - 1];
      assert (a + b)[..|a + b| - 1] == a + b';
      assert (a + b)[|a + b| - 1] == b[|b| - 1];
      SlotsStrippedAppend(a, b');
    } else {
      assert a + b == a;
    }
  }

  /** After stripping, no assignment of the body has a `__slots__` target, and none is empty. */
  lemma {:induction false} SlotsStrippedClean(body: seq<Node>)
    ensures SlotsFree(SlotsStripped(body))
    decreases |body|
  {
    if body != [] {
      SlotsStrippedClean(body[..|body| - 1]);
      var x := body[|body| - 1];
      if x.Assign? {
        TargetsKeptFilter(x.targets);
      }
    }
  }

  /** A body without `__slots__` declarations is left as it is. */
  lemma {:induction false} SlotsStrippedIdentity(body: seq<Node>)
    requires SlotsFree(body)
    ensures SlotsStripped(body) == body
    decreases |body|
  {
    if body != [] {
      var init := body[..|body| - 1];
      SlotsStrippedIdentity(init);
      var x := body[|body| - 1];
      if x.Assign? {
        TargetsKeptIdentity(x.targets);
      }
      assert body == init + [x];
    }
  }

  lemma {:induction false} TargetsKeptIdentity(ts: seq<Node>)
    requires forall t :: t in ts ==> !IsSlotsTarget(t)
    ensures TargetsKept(ts) == ts
    decreases |ts|
  {
    if ts != [] {
      TargetsKeptIdentity(ts[..|ts| - 1]);
      assert ts == ts[..|ts| - 1] + [ts[|ts| - 1]];
    }
  }

  /** Stripping keeps every attribute slot of the body in range. */
  lemma {:induction false} SlotsStrippedBelow(body: seq<Node>, size: nat)
    requires AllSlotsBelow(body, size)
    ensures AllSlotsBelow(SlotsStripped(body), size)
    decreases |body|
  {
    if body != [] {
      SlotsStrippedBelow(body[..|body| - 1], size);
      var x := body[|body| - 1];
      assert x in body;
      if x.Assign? {
        TargetsKeptFilter(x.targets);
      }
    }
  }

  lemma {:induction false} TargetsKeptSize(ts: seq<Node>)
    ensures SizeList(TargetsKept(ts)) <= SizeList(ts)
    decreases |ts|
  {
    if ts != [] {
      var init := ts[..|ts| - 1];
      var last := ts[|ts| - 1];
      TargetsKeptSize(init);
      SizeListAppend(init, [last]);
      SizeListAppend(TargetsKept(init), if IsSlotsTarget(last) then [] else [last]);
      assert ts == init + [last];
    }
  }

  /** Stripping builds no statement bigger than the one it came from. */
  lemma {:induction false} SlotsStrippedSize(body: seq<Node>, bound: nat)
    requires forall x :: x in body ==> Size(x) < bound
    ensures forall x :: x in SlotsStripped(body) ==> Size(x) < bound
    decreases |body|
  {
    if body != [] {
      var last := body[|body| - 1];
      assert last in body;
      SlotsStrippedSize(body[..|body| - 1], bound);
      if last.Assign? {
        TargetsKeptSize(last.targets);
      }
    }
  }

  lemma ItemKeptSize(x: Node)
    ensures SizeList(ItemKept(x)) <= Size(x)
  {
    assert SizeList([x]) == Size(x) + SizeList([]);
    if x.Assign? && TargetsKept(x.targets) != [] {
      var y := Assign(TargetsKept(x.targets), x.value);
      TargetsKeptSize(x.targets);
      assert SizeList([y]) == Size(y) + SizeList([]);
    }
  }

  /** Stripping does not make a body bigger. */
  lemma {:induction false} SlotsStrippedSizeList(body: seq<Node>)
    ensures SizeList(SlotsStripped(body)) <= SizeList(body)
    decreases |body|
  {
    if body != [] {
      var init := body[..|body| - 1];
      var last := body[|body| - 1];
      assert body == init + [last];
      SlotsStrippedSizeList(init);
      ItemKeptSize(last);
      SizeListAppend(init, [last]);
      SizeListAppend(SlotsStripped(init), ItemKept(last));
      assert SizeList([last]) == Size(last) + SizeList([]);
    }
  }

  /** Stripping twice is stripping once. */
  lemma SlotsStrippedIdempotent(body: seq<Node>)
    ensures SlotsStripped(SlotsStripped(body)) == SlotsStripped(body)
  {
    SlotsStrippedClean(body);
    SlotsStrippedIdentity(SlotsStripped(body));
  }

  /** Exactly the statements that were all-`__slots__` assignments are gone. */
  lemma {:induction false} SlotsStrippedLength(body: seq<Node>)
    ensures |SlotsStripped(body)| == |body| - |Dropped(body)|
    decreases |body|
  {
    if body != [] {
      SlotsStrippedLength(body[..|body| - 1]);
      var x := body[|body| - 1];
      if x.Assign? {
        TargetsKeptEmpty(x.targets);
      }
    }
  }

  /** The statements of the body that are assignments to `__slots__` only. */
  function Dropped(body: seq<Node>): seq<Node>
    decreases |body|
  {
    if body == [] then []
    else
      var x := body[|body| - 1];
      Dropped(body[..|body| - 1])
        + (if x.Assign? && forall t :: t in x.targets ==> IsSlotsTarget(t) then [x] else [])
  }
}
