/**
 * The composite command tree: a `CatsCommand` keeps a list whose slot 0 is
 * the command itself and whose later slots are its children, and iterates
 * over itself and its descendants with two mutable cursors (`currentCount`
 * for `next`, `hasNextCounter` for `hasNext`). Leaves are press-key,
 * press-and-hold and delay commands; since every IR command of the system is
 * a press-key command, one class with a `kind` field stands for the whole
 * hierarchy.
 *
 * The cursor state of a whole tree is mirrored by the ghost value `Model`;
 * `Step` is the pure effect of one `next()` call on it, `Pending` is what the
 * following calls return before the first null, and `Finish` is the state that
 * null leaves behind.
 */
module Commands {
  import opened Wrappers

  const REPEAT_MODE: int := 1
  const DURATION_MODE: int := 2
  const PRESS_KEY_NAME: string := "PressKey"
  const PRESS_KEY_AND_HOLD_NAME: string := "PressKeyAndHold"
  const DELAY_NAME: string := "Delay Command"

  datatype Kind = Group | PressKey | PressKeyAndHold | Delay

  /** What a port can observe of one command: its class and its payload. */
  datatype View =
    | GroupView(name: string)
    | PressView(key: string, keySet: string)
    | HoldView(key: string, keySet: string, mode: int, count: int, duration: int)
    | DelayView(delay: int)
  {
    /** `instanceof IrCommand`, which is also `instanceof PressKeyCommand`. */
    predicate IsIr() { PressView? || HoldView? }
  }

  // ------------------------------------------------------------ cursor model

  /**
   * Cursor state of one node: its cursor, whether its list is non-empty, and
   * the states of the children in list slots 1, 2, ...
   */
  datatype Tree = Tree(node: CatsCommand?, cursor: nat, nonEmpty: bool, kids: seq<Tree>)

  datatype StepResult = StepResult(tree: Tree, out: CatsCommand?)

  /** Outcome of scanning the children from one index: new children, cursor advance, result. */
  datatype ScanResult = ScanResult(kids: seq<Tree>, advance: nat, out: CatsCommand?)

  /** One call of `next()`. */
  function Step(t: Tree): StepResult
    decreases t, 1
  {
    if t.cursor == 0 then StepResult(t.(cursor := 1), t.node)
    else if t.cursor - 1 >= |t.kids| then StepResult(t.(cursor := 0), null)
    else
      var s := Scan(t.kids, t.cursor - 1);
      StepResult(t.(kids := s.kids, cursor := if s.out == null then 0 else t.cursor + s.advance), s.out)
  }

  /** The children part of `next()`, from child index `i` on. */
  function Scan(ks: seq<Tree>, i: nat): (r: ScanResult)
    requires i <= |ks|
    ensures |r.kids| == |ks|
    ensures forall j :: 0 <= j < i ==> r.kids[j] == ks[j]
    decreases ks, |ks| - i
  {
    if i == |ks| then ScanResult(ks, 0, null)
    else if !ks[i].nonEmpty then ScanResult(ks, 1, ks[i].node)
    else
      var c := Step(ks[i]);
      if c.out != null then ScanResult(ks[i := c.tree], 0, c.out)
      else
        var rest := Scan(ks, i + 1);
        ScanResult(rest.kids[i := c.tree], rest.advance + 1, rest.out)
  }

  /** The commands the following `next()` calls return before the first null. */
  function Pending(t: Tree): seq<CatsCommand?>
    decreases t, 1
  {
    if t.cursor == 0 then [t.node] + Yields(t.kids, 0)
    else if t.cursor - 1 <= |t.kids| then Yields(t.kids, t.cursor - 1)
    else []
  }

  function Yields(ks: seq<Tree>, i: nat): seq<CatsCommand?>
    decreases ks, if i <= |ks| then |ks| - i else 0
  {
    if i >= |ks| then [] else ChildYield(ks[i]) + Yields(ks, i + 1)
  }

  /** A child whose list is empty is returned itself, without consulting its cursor. */
  function ChildYield(c: Tree): seq<CatsCommand?>
    decreases c, 2
  {
    if c.nonEmpty then Pending(c) else [c.node]
  }

  /** The state after the null that ends the current pass. */
  function Finish(t: Tree): Tree
    decreases t, 1
  {
    t.(cursor := 0, kids := FinishFrom(t.kids, if t.cursor == 0 then 0 else t.cursor - 1))
  }

  /** Children from index `i` on are drained (and so reset); earlier ones are kept. */
  function FinishFrom(ks: seq<Tree>, i: nat): (r: seq<Tree>)
    ensures |r| == |ks|
    decreases ks, 0
  {
    seq(|ks|, j requires 0 <= j < |ks| => if j < i then ks[j] else FinishChild(ks[j]))
  }

  function FinishChild(c: Tree): Tree
    decreases c, 2
  {
    if c.nonEmpty then Finish(c) else c
  }

  /** Every node of the tree in pre-order, children in list order. */
  function PreOrder(t: Tree): seq<CatsCommand?>
    decreases t, 1
  {
    [t.node] + PreOrderKids(t.kids, 0)
  }

  function PreOrderKids(ks: seq<Tree>, i: nat): seq<CatsCommand?>
    decreases ks, if i <= |ks| then |ks| - i else 0
  {
    if i >= |ks| then []
    else Entry(ks[i]) + PreOrderKids(ks, i + 1)
  }

  /** The commands a child contributes: its subtree, or itself when its list is empty. */
  function Entry(c: Tree): seq<CatsCommand?>
    decreases c, 2
  {
    if c.nonEmpty then PreOrder(c) else [c.node]
  }

  /** All cursors of the tree at 0, as after construction. */
  predicate Idle(t: Tree)
    decreases t, 1
  {
    t.cursor == 0 && IdleKids(t.kids, 0)
  }

  predicate IdleKids(ks: seq<Tree>, i: nat)
    decreases ks, if i <= |ks| then |ks| - i else 0
  {
    i >= |ks| || ((!ks[i].nonEmpty || Idle(ks[i])) && IdleKids(ks, i + 1))
  }

  /** The outputs of `n` consecutive `next()` calls. */
  function Drain(t: Tree, n: nat): (r: seq<CatsCommand?>)
    ensures |r| == n
    decreases n
  {
    if n == 0 then [] else [Step(t).out] + Drain(Step(t).tree, n - 1)
  }

  function DrainState(t: Tree, n: nat): Tree
    decreases n
  {
    if n == 0 then t else DrainState(Step(t).tree, n - 1)
  }

  // ------------------------------------------------------------ cursor lemmas

  lemma {:induction false} YieldsUpdate(ks: seq<Tree>, j: nat, x: Tree, i: nat)
    requires j < i && j < |ks|
    ensures Yields(ks[j := x], i) == Yields(ks, i)
    decreases if i <= |ks| then |ks| - i else 0
  {
    if i < |ks| {
      YieldsUpdate(ks, j, x, i + 1);
    }
  }

  /** Children before the scan index do not influence the scan. */
  lemma {:induction false} ScanUpdate(ks: seq<Tree>, j: nat, x: Tree, i: nat)
    requires j < i <= |ks|
    ensures Scan(ks[j := x], i) == Scan(ks, i).(kids := Scan(ks, i).kids[j := x])
    decreases |ks| - i
  {
    var ks' := ks[j := x];
    if i == |ks| {
    } else if !ks[i].nonEmpty {
    } else {
      var c := Step(ks[i]);
      assert ks'[i] == ks[i];
      if c.out != null {
        assert ks'[i := c.tree] == ks[i := c.tree][j := x];
      } else {
        ScanUpdate(ks, j, x, i + 1);
        var rest := Scan(ks, i + 1);
        assert rest.kids[j := x][i := c.tree] == rest.kids[i := c.tree][j := x];
      }
    }
  }

  /** `next()` on a node whose cursor is at a child with an empty list returns that child. */
  lemma StepLeaf(t: Tree)
    requires 1 <= t.cursor && t.cursor - 1 < |t.kids| && !t.kids[t.cursor - 1].nonEmpty
    requires t.kids[t.cursor - 1].node != null
    ensures Step(t) == StepResult(t.(cursor := t.cursor + 1), t.kids[t.cursor - 1].node)
  {
    ScanLeaf(t.kids, t.cursor - 1);
  }

  lemma ScanLeaf(ks: seq<Tree>, i: nat)
    requires i < |ks| && !ks[i].nonEmpty
    ensures Scan(ks, i) == ScanResult(ks, 1, ks[i].node)
  {
  }

  /** `next()` returns what the child at the cursor returns, when that is not null. */
  lemma StepChildOut(t: Tree)
    requires 1 <= t.cursor && t.cursor - 1 < |t.kids| && t.kids[t.cursor - 1].nonEmpty
    requires Step(t.kids[t.cursor - 1]).out != null
    ensures Step(t) == StepResult(t.(kids := t.kids[t.cursor - 1 := Step(t.kids[t.cursor - 1]).tree]),
                                  Step(t.kids[t.cursor - 1]).out)
  {
    ScanChildOut(t.kids, t.cursor - 1);
  }

  lemma ScanChildOut(ks: seq<Tree>, i: nat)
    requires i < |ks| && ks[i].nonEmpty && Step(ks[i]).out != null
    ensures Scan(ks, i) == ScanResult(ks[i := Step(ks[i]).tree], 0, Step(ks[i]).out)
  {
  }

  /** When the child at the cursor answers null, `next()` moves on to the following slot. */
  lemma StepChildEnd(t: Tree)
    requires 1 <= t.cursor && t.cursor - 1 < |t.kids| && t.kids[t.cursor - 1].nonEmpty
    requires Step(t.kids[t.cursor - 1]).out == null
    ensures Step(t) == Step(t.(kids := t.kids[t.cursor - 1 := Step(t.kids[t.cursor - 1]).tree],
                               cursor := t.cursor + 1))
  {
    var k := t.cursor - 1;
    var x := Step(t.kids[k]).tree;
    var u := t.(kids := t.kids[k := x], cursor := t.cursor + 1);
    var rest := Scan(t.kids, k + 1);
    assert Scan(t.kids, k) == ScanResult(rest.kids[k := x], rest.advance + 1, rest.out);
    if k + 1 < |t.kids| {
      ScanUpdate(t.kids, k, x, k + 1);
      assert Scan(u.kids, k + 1) == rest.(kids := rest.kids[k := x]);
    } else {
      assert rest == ScanResult(t.kids, 0, null);
    }
  }

  /** Every node of the model is an actual command. */
  predicate Real(t: Tree)
    decreases t, 1
  {
    t.node != null && RealKids(t.kids)
  }

  predicate RealKids(ks: seq<Tree>)
    decreases ks, 0
  {
    forall k :: 0 <= k < |ks| ==> Real(ks[k])
  }

  lemma {:induction false} StepReal(t: Tree)
    requires Real(t)
    ensures Real(Step(t).tree)
    decreases t, 1
  {
    if t.cursor != 0 && t.cursor - 1 < |t.kids| {
      ScanReal(t.kids, t.cursor - 1);
    }
  }

  lemma {:induction false} ScanReal(ks: seq<Tree>, i: nat)
    requires i <= |ks| && RealKids(ks)
    ensures RealKids(Scan(ks, i).kids)
    decreases ks, |ks| - i
  {
    if i < |ks| && ks[i].nonEmpty {
      StepReal(ks[i]);
      if Step(ks[i]).out == null {
        ScanReal(ks, i + 1);
      }
    }
  }

  /**
   * One `next()`: while the pass is not over it returns the first pending
   * command and leaves the end state alone; at the end of the pass it
   * returns null and moves to that end state.
   */
  lemma {:induction false} StepSpec(t: Tree)
    requires Real(t)
    ensures Pending(t) == [] ==> Step(t).out == null && Step(t).tree == Finish(t)
    ensures Pending(t) != [] ==>
      Step(t).out == Pending(t)[0] && Step(t).out != null &&
      Pending(Step(t).tree) == Pending(t)[1..] &&
      Finish(Step(t).tree) == Finish(t)
    decreases t, 2
  {
    if t.cursor == 0 {
      assert Step(t).tree.kids == t.kids;
    } else if t.cursor - 1 >= |t.kids| {
      assert FinishFrom(t.kids, t.cursor - 1) == t.kids;
    } else {
      ScanSpec(t.kids, t.cursor - 1);
    }
  }

  /** What `Scan` promises, in terms of the children's pending commands and end states. */
  predicate ScanMeets(ks: seq<Tree>, i: nat, r: ScanResult)
    requires i <= |ks|
  {
    |r.kids| == |ks| &&
    (Yields(ks, i) == [] ==> r.out == null && r.kids == FinishFrom(ks, i)) &&
    (Yields(ks, i) != [] ==>
      r.out == Yields(ks, i)[0] && r.out != null &&
      i + r.advance <= |ks| &&
      Yields(r.kids, i + r.advance) == Yields(ks, i)[1..] &&
      FinishFrom(r.kids, i + r.advance) == FinishFrom(ks, i))
  }

  lemma {:induction false} ScanSpec(ks: seq<Tree>, i: nat)
    requires i <= |ks| && RealKids(ks)
    ensures ScanMeets(ks, i, Scan(ks, i))
    decreases ks, |ks| - i, 1
  {
    if i == |ks| {
      assert FinishFrom(ks, i) == ks;
    } else if !ks[i].nonEmpty {
      assert Yields(ks, i) == [ks[i].node] + Yields(ks, i + 1);
      assert FinishFrom(ks, i + 1) == FinishFrom(ks, i);
    } else if Step(ks[i]).out != null {
      ScanChildReturns(ks, i);
    } else {
      ScanChildEnds(ks, i);
    }
  }

  /** The child at the cursor still has something pending: its first command is returned. */
  lemma {:induction false} ScanChildReturns(ks: seq<Tree>, i: nat)
    requires i < |ks| && RealKids(ks) && ks[i].nonEmpty && Step(ks[i]).out != null
    ensures ScanMeets(ks, i, Scan(ks, i))
    decreases ks, |ks| - i, 0
  {
    var c := Step(ks[i]);
    var r := Scan(ks, i);
    StepSpec(ks[i]);
    assert Yields(ks, i) == Pending(ks[i]) + Yields(ks, i + 1);
    assert r.kids == ks[i := c.tree] && r.advance == 0;
    YieldsUpdate(ks, i, c.tree, i + 1);
    assert Yields(r.kids, i) == Pending(c.tree) + Yields(r.kids, i + 1);
    assert FinishFrom(r.kids, i) == FinishFrom(ks, i);
  }

  /** The child at the cursor is exhausted: it resets and the scan moves on. */
  lemma {:induction false} ScanChildEnds(ks: seq<Tree>, i: nat)
    requires i < |ks| && RealKids(ks) && ks[i].nonEmpty && Step(ks[i]).out == null
    ensures ScanMeets(ks, i, Scan(ks, i))
    decreases ks, |ks| - i, 0
  {
    var c := Step(ks[i]);
    assert c.tree == Finish(ks[i]) && Yields(ks, i) == Yields(ks, i + 1) by {
      StepSpec(ks[i]);
      assert Pending(ks[i]) == [];
    }
    ScanSpec(ks, i + 1);
    ScanPast(ks, i);
    ScanPastMeets(ks, i, c.tree, Scan(ks, i + 1), Scan(ks, i));
  }

  /** One unfolding of `Scan` past an exhausted child. */
  lemma ScanPast(ks: seq<Tree>, i: nat)
    requires i < |ks| && ks[i].nonEmpty && Step(ks[i]).out == null
    ensures Scan(ks, i) == ScanResult(Scan(ks, i + 1).kids[i := Step(ks[i]).tree], Scan(ks, i + 1).advance + 1, Scan(ks, i + 1).out)
  {
  }

  /** Scanning past a child that finished keeps what the scan from the next index promises. */
  lemma ScanPastMeets(ks: seq<Tree>, i: nat, x: Tree, rest: ScanResult, r: ScanResult)
    requires i < |ks| && ks[i].nonEmpty
    requires x == Finish(ks[i]) && Yields(ks, i) == Yields(ks, i + 1)
    requires ScanMeets(ks, i + 1, rest)
    requires r == ScanResult(rest.kids[i := x], rest.advance + 1, rest.out)
    ensures ScanMeets(ks, i, r)
  {
    FinishFromStep(ks, i);
    if Yields(ks, i + 1) != [] {
      var j := i + 1 + rest.advance;
      YieldsUpdate(rest.kids, i, x, j);
      FinishFromUpdate(rest.kids, i, x, j);
    }
  }

  /** Finishing from `i` is finishing from `i + 1` with child `i` finished too. */
  lemma FinishFromStep(ks: seq<Tree>, i: nat)
    requires i < |ks|
    ensures FinishFrom(ks, i) == FinishFrom(ks, i + 1)[i := FinishChild(ks[i])]
  {
    var a, b := FinishFrom(ks, i), FinishFrom(ks, i + 1)[i := FinishChild(ks[i])];
    assert forall j :: 0 <= j < |ks| ==> a[j] == b[j];
  }

  /** A child before the finishing index is kept as it is. */
  lemma FinishFromUpdate(ks: seq<Tree>, i: nat, x: Tree, j: nat)
    requires i < j && i < |ks|
    ensures FinishFrom(ks[i := x], j) == FinishFrom(ks, j)[i := x]
  {
    var a, b := FinishFrom(ks[i := x], j), FinishFrom(ks, j)[i := x];
    assert forall k :: 0 <= k < |ks| ==> a[k] == b[k];
  }

  /** On an idle tree the pending commands are all nodes in pre-order. */
  lemma {:induction false} IdlePending(t: Tree)
    requires Idle(t)
    ensures Pending(t) == PreOrder(t)
    decreases t, 1
  {
    IdleKidsYields(t.kids, 0);
  }

  lemma {:induction false} IdleKidsYields(ks: seq<Tree>, i: nat)
    requires IdleKids(ks, i)
    ensures Yields(ks, i) == PreOrderKids(ks, i)
    decreases ks, if i <= |ks| then |ks| - i else 0
  {
    if i < |ks| {
      if ks[i].nonEmpty {
        IdlePending(ks[i]);
      }
      IdleKidsYields(ks, i + 1);
    }
  }

  /** `n` calls that stay within the pass return the first `n` pending commands. */
  lemma {:induction false} DrainPending(t: Tree, n: nat)
    requires Real(t) && n <= |Pending(t)|
    ensures Drain(t, n) == Pending(t)[..n]
    ensures Pending(DrainState(t, n)) == Pending(t)[n..]
    ensures Finish(DrainState(t, n)) == Finish(t) && Real(DrainState(t, n))
    decreases n
  {
    if n > 0 {
      StepSpec(t);
      StepReal(t);
      DrainPending(Step(t).tree, n - 1);
    }
  }

  lemma {:induction false} IdleKidsAt(ks: seq<Tree>, i: nat, j: nat)
    requires IdleKids(ks, i) && i <= j < |ks|
    ensures !ks[j].nonEmpty || Idle(ks[j])
    decreases j - i
  {
    if i < j {
      IdleKidsAt(ks, i + 1, j);
    }
  }

  /** Ending a pass that has not started leaves the tree as it is. */
  lemma {:induction false} IdleFinish(t: Tree)
    requires Idle(t)
    ensures Finish(t) == t
    decreases t
  {
    var f := FinishFrom(t.kids, 0);
    forall j | 0 <= j < |t.kids|
      ensures f[j] == t.kids[j]
    {
      IdleKidsAt(t.kids, 0, j);
      assert f[j] == FinishChild(t.kids[j]);
      if t.kids[j].nonEmpty {
        IdleFinish(t.kids[j]);
      }
    }
    assert f == t.kids;
  }

  /**
   * From the idle state, `next()` returns every command of the tree in
   * pre-order, then null, and leaves the tree idle again, so the following
   * pass repeats the same sequence.
   */
  lemma FullPass(t: Tree)
    requires Idle(t) && Real(t)
    ensures Drain(t, |PreOrder(t)| + 1) == PreOrder(t) + [null]
    ensures DrainState(t, |PreOrder(t)| + 1) == t
  {
    var n := |PreOrder(t)|;
    IdlePending(t);
    DrainPending(t, n);
    var u := DrainState(t, n);
    StepSpec(u);
    IdleFinish(t);
    DrainLast(t, n);
  }

  /** The last of `n + 1` calls is one more step from where `n` calls left off. */
  lemma {:induction false} DrainLast(t: Tree, n: nat)
    ensures Drain(t, n + 1) == Drain(t, n) + [Step(DrainState(t, n)).out]
    ensures DrainState(t, n + 1) == Step(DrainState(t, n)).tree
    decreases n
  {
    if n > 0 {
      DrainLast(Step(t).tree, n - 1);
    }
  }

  lemma {:induction false} PreOrderKidsAppend(ks: seq<Tree>, c: Tree, i: nat)
    requires i <= |ks|
    ensures PreOrderKids(ks + [c], i) == PreOrderKids(ks, i) + Entry(c)
    decreases |ks| - i
  {
    if i < |ks| {
      PreOrderKidsAppend(ks, c, i + 1);
      assert (ks + [c])[i] == ks[i];
    } else {
      assert (ks + [c])[i] == c;
      assert PreOrderKids(ks + [c], i + 1) == [];
    }
  }

  /**
   * `add` puts the new child's commands after everything already in the tree:
   * the whole subtree when its list is non-empty, the child alone otherwise.
   */
  lemma PreOrderAdd(t: Tree, c: Tree)
    ensures PreOrder(t.(kids := t.kids + [c])) == PreOrder(t) + Entry(c)
  {
    PreOrderKidsAppend(t.kids, c, 0);
  }

  lemma {:induction false} IdleKidsAppend(ks: seq<Tree>, c: Tree, i: nat)
    requires i <= |ks| && IdleKids(ks, i) && (!c.nonEmpty || Idle(c))
    ensures IdleKids(ks + [c], i)
    decreases |ks| - i
  {
    if i < |ks| {
      IdleKidsAppend(ks, c, i + 1);
      assert (ks + [c])[i] == ks[i];
    } else {
      assert (ks + [c])[i] == c;
    }
  }

  lemma IdleAdd(t: Tree, c: Tree)
    requires Idle(t) && (!c.nonEmpty || Idle(c))
    ensures Idle(t.(kids := t.kids + [c]))
  {
    IdleKidsAppend(t.kids, c, 0);
  }

  /**
   * A loop `while (hasNext()) next();` on an idle tree makes `|PreOrder|`
   * calls: it sees every command in pre-order but not the closing null, so
   * the tree is left drained rather than idle, and the next such loop starts
   * with that null and then repeats all but the last command.
   */
  lemma HasNextPasses(t: Tree)
    requires Idle(t) && Real(t)
    ensures Drain(t, |PreOrder(t)|) == PreOrder(t)
    ensures Step(DrainState(t, |PreOrder(t)|)).out == null
    ensures Drain(DrainState(t, |PreOrder(t)|), |PreOrder(t)|) == [null] + PreOrder(t)[..|PreOrder(t)| - 1]
  {
    var n := |PreOrder(t)|;
    IdlePending(t);
    DrainPending(t, n);
    var u := DrainState(t, n);
    StepSpec(u);
    IdleFinish(t);
    DrainPending(t, n - 1);
    assert Drain(u, n) == [null] + Drain(t, n - 1);
  }

  // ------------------------------------------------------------ the class

  class CatsCommand {
    var name: string
    var catsCommands: seq<CatsCommand>
    var currentCount: int
    var hasNextCounter: int
    var activeSize: int
    var kind: Kind
    var remoteCommand: string
    var irKeySet: string
    var count: int
    var duration: int
    var mode: int
    var delay: int
    ghost var Model: Tree
    ghost var Repr: set<CatsCommand>

    ghost predicate Valid()
      reads this, Repr
      decreases Repr
    {
      this in Repr &&
      Model.node == this && Model.cursor == currentCount &&
      Model.nonEmpty == (|catsCommands| > 0) &&
      |Model.kids| == (if |catsCommands| > 0 then |catsCommands| - 1 else 0) &&
      count >= 0 && duration >= 0 && delay >= 0 &&
      (forall k :: 1 <= k < |catsCommands| ==>
        catsCommands[k] in Repr && catsCommands[k].Repr <= Repr &&
        this !in catsCommands[k].Repr && catsCommands[k].Valid() &&
        Model.kids[k - 1] == catsCommands[k].Model) &&
      (forall k, l :: 1 <= k < l < |catsCommands| ==> catsCommands[k].Repr !! catsCommands[l].Repr)
    }

    /** Every node the model mentions is an actual command. */
    lemma ModelReal()
      requires Valid()
      ensures Real(Model)
      decreases Repr
    {
      forall k | 1 <= k < |catsCommands| {
        catsCommands[k].ModelReal();
      }
      assert forall j :: 0 <= j < |Model.kids| ==> Model.kids[j] == catsCommands[j + 1].Model;
    }

    /** `activeSize` counts the commands of the tree, as it does for trees built only by `add`. */
    ghost predicate Sized()
      reads this
    {
      activeSize == |PreOrder(Model)|
    }

    /** The fields `next()` never changes. */
    function Frozen(): (string, seq<CatsCommand>, int, int, View)
      reads this
    {
      (name, catsCommands, hasNextCounter, activeSize, View())
    }

    function View(): View
      reads this
    {
      match kind
      case Group => GroupView(name)
      case PressKey => PressView(remoteCommand, irKeySet)
      case PressKeyAndHold => HoldView(remoteCommand, irKeySet, mode, count, duration)
      case Delay => DelayView(delay)
    }

    /** `new CatsCommand()`. */
    constructor ()
      ensures Valid() && fresh(Repr) && Repr == {this} && Sized() && Idle(Model)
      ensures name == "" && catsCommands == [this] && activeSize == 1
      ensures currentCount == 0 && hasNextCounter == 0 && kind == Group
      ensures Model == Tree(this, 0, true, [])
    {
      name := "";
      currentCount := 0;
      hasNextCounter := 0;
      kind := Group;
      remoteCommand := "";
      irKeySet := "";
      count := 0;
      duration := 0;
      mode := REPEAT_MODE;
      delay := 0;
      new;
      activeSize := 1;
      catsCommands := [this];
      Model := Tree(this, 0, true, []);
      Repr := {this};
    }

    /** `new CatsCommand(name)`. */
    constructor Named(n: string)
      ensures Valid() && fresh(Repr) && Repr == {this} && Sized() && Idle(Model)
      ensures name == n && catsCommands == [this] && activeSize == 1
      ensures currentCount == 0 && hasNextCounter == 0 && kind == Group
      ensures Model == Tree(this, 0, true, [])
    {
      name := n;
      currentCount := 0;
      hasNextCounter := 0;
      kind := Group;
      remoteCommand := "";
      irKeySet := "";
      count := 0;
      duration := 0;
      mode := REPEAT_MODE;
      delay := 0;
      new;
      activeSize := 1;
      catsCommands := [this];
      Model := Tree(this, 0, true, []);
      Repr := {this};
    }

    /** `new PressKeyCommand(command, irKeySet)`. */
    constructor PressKey(command: string, keySet: string)
      ensures Valid() && fresh(Repr) && Repr == {this} && Sized() && Idle(Model)
      ensures name == PRESS_KEY_NAME && catsCommands == [this] && activeSize == 1
      ensures currentCount == 0 && hasNextCounter == 0
      ensures View() == PressView(command, keySet)
      ensures Model == Tree(this, 0, true, [])
    {
      name := PRESS_KEY_NAME;
      currentCount := 0;
      hasNextCounter := 0;
      kind := Kind.PressKey;
      remoteCommand := command;
      irKeySet := keySet;
      count := 0;
      duration := 0;
      mode := REPEAT_MODE;
      delay := 0;
      new;
      activeSize := 1;
      catsCommands := [this];
      Model := Tree(this, 0, true, []);
      Repr := {this};
    }

    /**
     * `new PressKeyAndHoldCommand(command, irKeySet, countOrDuration, mode)`:
     * a null mode keeps REPEAT_MODE and ignores the amount, mode 1 stores it as
     * the count, mode 2 as the duration, and any other mode stores neither.
     */
    constructor PressKeyAndHold(command: string, keySet: string, countOrDuration: int, m: Option<int>)
      ensures Valid() && fresh(Repr) && Repr == {this} && Sized() && Idle(Model)
      ensures name == PRESS_KEY_AND_HOLD_NAME && catsCommands == [this] && activeSize == 1
      ensures currentCount == 0 && hasNextCounter == 0
      ensures View() == HoldView(command, keySet,
        if m.Some? then m.value else REPEAT_MODE,
        if m == Some(REPEAT_MODE) then Clamp(countOrDuration) else 0,
        if m == Some(DURATION_MODE) then Clamp(countOrDuration) else 0)
      ensures Model == Tree(this, 0, true, [])
    {
      name := PRESS_KEY_AND_HOLD_NAME;
      currentCount := 0;
      hasNextCounter := 0;
      kind := Kind.PressKeyAndHold;
      remoteCommand := command;
      irKeySet := keySet;
      count := 0;
      duration := 0;
      mode := REPEAT_MODE;
      delay := 0;
      if m.Some? {
        mode := m.value;
        if m.value == REPEAT_MODE {
          count := Clamp(countOrDuration);
        } else if m.value == DURATION_MODE {
          duration := Clamp(countOrDuration);
        }
      }
      new;
      activeSize := 1;
      catsCommands := [this];
      Model := Tree(this, 0, true, []);
      Repr := {this};
    }

    /** `new DelayCommand(delayMs)`: a negative delay becomes 0. */
    constructor Delay(delayMs: int)
      ensures Valid() && fresh(Repr) && Repr == {this} && Sized() && Idle(Model)
      ensures name == DELAY_NAME && catsCommands == [this] && activeSize == 1
      ensures currentCount == 0 && hasNextCounter == 0
      ensures View() == DelayView(Clamp(delayMs))
      ensures Model == Tree(this, 0, true, [])
    {
      name := DELAY_NAME;
      currentCount := 0;
      hasNextCounter := 0;
      kind := Kind.Delay;
      remoteCommand := "";
      irKeySet := "";
      count := 0;
      duration := 0;
      mode := REPEAT_MODE;
      delay := Clamp(delayMs);
      new;
      activeSize := 1;
      catsCommands := [this];
      Model := Tree(this, 0, true, []);
      Repr := {this};
    }

    /** `toString()`. */
    function ToString(): (s: string)
      reads this
      ensures s == name
    {
      name
    }

    method SetName(n: string)
      requires Valid()
      modifies this`name
      ensures Valid() && name == n
    {
      name := n;
    }

    method SetRemoteCommand(c: string)
      requires Valid() && View().IsIr()
      modifies this`remoteCommand
      ensures Valid() && remoteCommand == c
    {
      remoteCommand := c;
    }

    method SetIrKeySet(k: string)
      requires Valid() && View().IsIr()
      modifies this`irKeySet
      ensures Valid() && irKeySet == k
    {
      irKeySet := k;
    }

    /** `setCount`: negative counts become 0. */
    method SetCount(c: int)
      requires Valid()
      modifies this`count
      ensures Valid() && count == Clamp(c)
    {
      count := if c < 0 then 0 else c;
    }

    /** `setDuration`: negative durations become 0. */
    method SetDuration(d: int)
      requires Valid()
      modifies this`duration
      ensures Valid() && duration == Clamp(d)
    {
      duration := if d < 0 then 0 else d;
    }

    method SetMode(m: int)
      requires Valid()
      modifies this`mode
      ensures Valid() && mode == m
    {
      mode := m;
    }

    /** `setDelay`: negative delays become 0. */
    method SetDelay(d: int)
      requires Valid()
      modifies this`delay
      ensures Valid() && delay == Clamp(d)
    {
      delay := if d < 0 then 0 else d;
    }

    /**
     * `add(command)`: null is refused; otherwise the command becomes the last
     * child and `activeSize` grows by the child's `activeSize` as it is now
     * (by 1 when the child's list is empty).
     */
    method Add(c: CatsCommand?) returns (r: Result<CatsCommand>)
      requires Valid()
      requires c != null ==> c.Valid() && Repr !! c.Repr
      modifies this`catsCommands, this`activeSize, this`Model, this`Repr
      ensures Valid()
      ensures c == null ==> r == Err(IllegalArgument) && unchanged(this)
      ensures c != null ==> r == Ok(this)
      ensures c != null ==> catsCommands == old(catsCommands) + [c]
      ensures c != null ==>
        activeSize == old(activeSize) + (if |c.catsCommands| > 0 then c.activeSize else 1)
      ensures c != null ==> Repr == old(Repr) + c.Repr
      ensures c != null && old(Sized()) && |old(catsCommands)| > 0 && (|c.catsCommands| > 0 ==> c.Sized()) ==> Sized()
      ensures c != null && Idle(old(Model)) && (|c.catsCommands| > 0 ==> Idle(c.Model)) ==> Idle(Model)
      ensures c != null ==>
        Model == if |old(catsCommands)| > 0 then old(Model).(kids := old(Model).kids + [c.Model])
                 else old(Model).(nonEmpty := true)
    {
      if c == null {
        return Err(IllegalArgument);
      }
      if |catsCommands| > 0 {
        PreOrderAdd(Model, c.Model);
        if Idle(Model) && (|c.catsCommands| > 0 ==> Idle(c.Model)) {
          IdleAdd(Model, c.Model);
        }
      }
      Append(c);
      if |c.catsCommands| > 0 {
        activeSize := activeSize + c.activeSize;
      } else {
        activeSize := activeSize + 1;
      }
      r := Ok(this);
    }

    /** The list part of `add`: `c` becomes the last entry, and its tree a child of this one. */
    method Append(c: CatsCommand)
      requires Valid() && c.Valid() && Repr !! c.Repr
      modifies this`catsCommands, this`Model, this`Repr
      ensures Valid() && c.Valid()
      ensures catsCommands == old(catsCommands) + [c] && Repr == old(Repr) + c.Repr
      ensures Model == if |old(catsCommands)| > 0 then old(Model).(kids := old(Model).kids + [c.Model])
                       else old(Model).(nonEmpty := true)
    {
      catsCommands := catsCommands + [c];
      if |catsCommands| > 1 {
        Model := Model.(kids := Model.kids + [c.Model]);
      } else {
        Model := Model.(nonEmpty := true);
      }
      Repr := Repr + c.Repr;
    }

    /** `hasNext()`: true while the counter is below `activeSize`; then false once, resetting it. */
    method HasNext() returns (b: bool)
      requires Valid()
      modifies this`hasNextCounter
      ensures Valid()
      ensures (b, hasNextCounter) == CounterStep(old(hasNextCounter), activeSize)
    {
      if hasNextCounter < activeSize {
        hasNextCounter := hasNextCounter + 1;
        b := true;
      } else {
        hasNextCounter := 0;
        b := false;
      }
    }

    /** `next()`. */
    method Next() returns (r: CatsCommand?)
      requires Valid()
      modifies Repr
      ensures Valid() && Repr == old(Repr)
      ensures Model == Step(old(Model)).tree && r == Step(old(Model)).out
      ensures old(Pending(Model)) == [] ==> r == null && Model == Finish(old(Model))
      ensures old(Pending(Model)) != [] ==>
        r == old(Pending(Model))[0] && Pending(Model) == old(Pending(Model))[1..] &&
        Finish(Model) == Finish(old(Model))
      ensures r == null || r in Repr
      ensures forall o :: o in Repr ==> o.Frozen() == old(o.Frozen()) && o.Repr == old(o.Repr)
    {
      ModelReal();
      StepSpec(Model);
      r := NextStep();
    }

    method NextStep() returns (r: CatsCommand?)
      requires Valid()
      modifies Repr
      ensures Valid() && Repr == old(Repr)
      ensures Model == Step(old(Model)).tree && r == Step(old(Model)).out
      ensures r == null || r in Repr
      ensures forall o :: o in Repr ==> o.Frozen() == old(o.Frozen()) && o.Repr == old(o.Repr)
      decreases Repr, |catsCommands| - currentCount + 1, 1
    {
      if currentCount == 0 {
        MoveCursor(1);
        r := this;
      } else if currentCount < |catsCommands| {
        r := NextAtCursor();
      } else {
        MoveCursor(0);
        r := null;
      }
    }

    /** `next()` with the cursor on a list entry: that entry, or what its own `next()` gives, or on to the following entry. */
    method NextAtCursor() returns (r: CatsCommand?)
      requires Valid() && 1 <= currentCount < |catsCommands|
      modifies Repr
      ensures Valid() && Repr == old(Repr)
      ensures Model == Step(old(Model)).tree && r == Step(old(Model)).out
      ensures r == null || r in Repr
      ensures forall o :: o in Repr ==> o.Frozen() == old(o.Frozen()) && o.Repr == old(o.Repr)
      decreases Repr, |catsCommands| - currentCount + 1, 0
    {
      var c := catsCommands[currentCount];
      ghost var m0 := Model;
      assert m0.kids[currentCount - 1] == c.Model;
      if |c.catsCommands| > 0 {
        var child := AdvanceChild();
        if child == null {
          StepChildEnd(m0);
          MoveCursor(currentCount + 1);
          r := NextStep();
        } else {
          StepChildOut(m0);
          r := child;
        }
      } else {
        r := NextLeaf();
      }
    }

    /** `next()` with the cursor on an entry whose own list is empty: that entry itself. */
    method NextLeaf() returns (r: CatsCommand)
      requires Valid() && 1 <= currentCount < |catsCommands|
      requires |catsCommands[currentCount].catsCommands| == 0
      modifies this`currentCount, this`Model
      ensures Valid()
      ensures Model == Step(old(Model)).tree && r == Step(old(Model)).out
      ensures r in Repr
    {
      r := catsCommands[currentCount];
      assert Model.kids[currentCount - 1] == r.Model;
      StepLeaf(Model);
      MoveCursor(currentCount + 1);
    }

    /** Moves this node's own cursor, leaving its children alone. */
    method MoveCursor(n: nat)
      requires Valid()
      modifies this`currentCount, this`Model
      ensures Valid() && currentCount == n && Model == old(Model).(cursor := n)
    {
      currentCount := n;
      Model := Model.(cursor := n);
    }

    /** The child at the cursor takes one step of its own iteration. */
    method AdvanceChild() returns (child: CatsCommand?)
      requires Valid() && 1 <= currentCount < |catsCommands|
      requires |catsCommands[currentCount].catsCommands| > 0
      modifies Repr
      ensures Valid() && Repr == old(Repr) && currentCount == old(currentCount)
      ensures Model == old(Model).(kids := old(Model).kids[currentCount - 1 := Step(old(Model).kids[currentCount - 1]).tree])
      ensures child == Step(old(Model).kids[currentCount - 1]).out
      ensures child == null || child in Repr
      ensures forall o :: o in Repr ==> o.Frozen() == old(o.Frozen()) && o.Repr == old(o.Repr)
      decreases Repr, 0
    {
      var c := catsCommands[currentCount];
      ghost var k := currentCount - 1;
      assert Model.kids[k] == c.Model;
      child := c.NextStep();
      Model := Model.(kids := Model.kids[k := c.Model]);
      assert forall l :: 1 <= l < |catsCommands| && l != currentCount ==> catsCommands[l].Repr !! c.Repr;
    }

    /** `remove()`: deletes the list entry at the cursor; out of range throws. */
    method Remove() returns (r: Result<()>)
      requires Valid()
      modifies this`catsCommands, this`Model
      ensures Valid()
      ensures old(currentCount) >= |old(catsCommands)| ==> r == Err(IndexOutOfBounds) && unchanged(this)
      ensures old(currentCount) < |old(catsCommands)| ==> r == Ok(())
      ensures old(currentCount) < |old(catsCommands)| ==>
        catsCommands == old(catsCommands)[..currentCount] + old(catsCommands)[currentCount + 1..]
    {
      if currentCount >= |catsCommands| {
        return Err(IndexOutOfBounds);
      }
      if |catsCommands| == 1 {
        DropOnly();
      } else if currentCount == 0 {
        DropHead();
      } else {
        DropKid(currentCount);
      }
      r := Ok(());
    }

    /** Removing the only entry leaves the list empty. */
    method DropOnly()
      requires Valid() && |catsCommands| == 1
      modifies this`catsCommands, this`Model
      ensures Valid() && catsCommands == []
    {
      catsCommands := [];
      Model := Model.(nonEmpty := false, kids := []);
    }

    /** Removing entry 0 shifts every later entry down one slot; the children stay the same commands. */
    method DropHead()
      requires Valid() && |catsCommands| > 1
      modifies this`catsCommands, this`Model
      ensures Valid() && catsCommands == old(catsCommands)[1..]
    {
      catsCommands := catsCommands[1..];
      Model := Model.(kids := Model.kids[1..]);
    }

    /** Removing the child in slot `i`. */
    method DropKid(i: nat)
      requires Valid() && 1 <= i < |catsCommands|
      modifies this`catsCommands, this`Model
      ensures Valid() && catsCommands == old(catsCommands)[..i] + old(catsCommands)[i + 1..]
    {
      ghost var cs := catsCommands;
      catsCommands := catsCommands[..i] + catsCommands[i + 1..];
      Model := Model.(kids := Model.kids[..i - 1] + Model.kids[i..]);
      assert forall k :: 1 <= k < |catsCommands| ==> catsCommands[k] == if k < i then cs[k] else cs[k + 1];
    }
  }

  function Clamp(n: int): (r: nat)
    ensures n >= 0 ==> r == n
    ensures n < 0 ==> r == 0
  {
    if n < 0 then 0 else n
  }

  /** The effect of one `hasNext()` on (counter, activeSize). */
  function CounterStep(counter: int, size: int): (bool, int)
  {
    if counter < size then (true, counter + 1) else (false, 0)
  }

  /** Results of `n` consecutive `hasNext()` calls starting from `counter`. */
  function CounterRun(counter: int, size: int, n: nat): (r: seq<bool>)
    ensures |r| == n
    decreases n
  {
    if n == 0 then [] else [CounterStep(counter, size).0] + CounterRun(CounterStep(counter, size).1, size, n - 1)
  }

  /**
   * From a reset counter, `hasNext` answers true exactly `size` times in a row,
   * then false once, and is then back to its reset state.
   */
  lemma {:induction false} CounterRunFromZero(size: nat, counter: nat, n: nat)
    requires counter <= size && n == size - counter + 1
    ensures forall i :: 0 <= i < n - 1 ==> CounterRun(counter, size, n)[i]
    ensures !CounterRun(counter, size, n)[n - 1]
    decreases n
  {
    if counter < size {
      CounterRunFromZero(size, counter + 1, n - 1);
    }
  }
}
