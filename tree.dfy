/** The command tree of the tree-design shell, and the slots the parser
    points into.  A slot is the place a `std::unique_ptr<Command>` lives:
    the root, an element of a Sequential node's `sequence`, or the
    `secondary` of a two-command node.  A slot is named by its path from the
    root; `Null` is an empty `unique_ptr`. */
module CommandTree {

  /** The leaf classes: ExecutableCommand and the two builtins derived from
      it. */
  datatype ExecKind = Program | ExitBuiltin | TestBuiltin

  datatype Command =
    | Null
    | Executable(kind: ExecKind, program: string, arguments: seq<string>)
    | Sequential(sequence: seq<Command>)
    | Conjunctive(primary: Command, secondary: Command)
    | Disjunctive(primary: Command, secondary: Command)
    | Pipe(primary: Command, secondary: Command)
    | InputRedirection(primary: Command, path: string)
    | OutputRedirection(primary: Command, path: string)

  /** One step from a node to one of its slots. */
  datatype Step = Elem(index: nat) | Secondary

  type Path = seq<Step>

  predicate HasSecondary(t: Command)
  {
    t.Conjunctive? || t.Disjunctive? || t.Pipe?
  }

  /** `p` leads from `t` to an existing slot. */
  predicate IsSlot(t: Command, p: Path)
    decreases p
  {
    p == [] ||
    match p[0]
    case Elem(i) => t.Sequential? && i < |t.sequence| && IsSlot(t.sequence[i], p[1..])
    case Secondary => HasSecondary(t) && IsSlot(t.secondary, p[1..])
  }

  /** What the slot at `p` holds (Null where there is no such slot). */
  function At(t: Command, p: Path): Command
    decreases p
  {
    if p == [] then t
    else match p[0]
      case Elem(i) => if t.Sequential? && i < |t.sequence| then At(t.sequence[i], p[1..]) else Null
      case Secondary => if HasSecondary(t) then At(t.secondary, p[1..]) else Null
  }

  /** `t` with the slot at `p` overwritten by `v` (unchanged where there is
      no such slot). */
  function Put(t: Command, p: Path, v: Command): Command
    decreases p
  {
    if p == [] then v
    else match p[0]
      case Elem(i) =>
        if t.Sequential? && i < |t.sequence| then Sequential(t.sequence[i := Put(t.sequence[i], p[1..], v)]) else t
      case Secondary =>
        if HasSecondary(t) then t.(secondary := Put(t.secondary, p[1..], v)) else t
  }

  /** A write to a slot is read back from it, and the slot stays. */
  lemma {:induction false} AtPut(t: Command, p: Path, v: Command)
    requires IsSlot(t, p)
    ensures IsSlot(Put(t, p, v), p) && At(Put(t, p, v), p) == v
    decreases p
  {
    if p != [] {
      match p[0]
      case Elem(i) =>
        AtPut(t.sequence[i], p[1..], v);
      case Secondary =>
        AtPut(t.secondary, p[1..], v);
    }
  }

  /** Paths compose: the slot at `p + q` is the slot at `q` inside the node
      at `p`. */
  lemma {:induction false} SlotConcat(t: Command, p: Path, q: Path)
    ensures IsSlot(t, p + q) <==> IsSlot(t, p) && IsSlot(At(t, p), q)
    ensures IsSlot(t, p) ==> At(t, p + q) == At(At(t, p), q)
    decreases p
  {
    if p == [] {
      assert p + q == q;
    } else {
      assert (p + q)[0] == p[0] && (p + q)[1..] == p[1..] + q;
      match p[0]
      case Elem(i) =>
        if t.Sequential? && i < |t.sequence| {
          SlotConcat(t.sequence[i], p[1..], q);
        }
      case Secondary =>
        if HasSecondary(t) {
          SlotConcat(t.secondary, p[1..], q);
        }
    }
  }

  /** A write below the slot at `p` is a write inside the node held there. */
  lemma {:induction false} PutConcat(t: Command, p: Path, q: Path, v: Command)
    requires IsSlot(t, p)
    ensures Put(t, p + q, v) == Put(t, p, Put(At(t, p), q, v))
    decreases p
  {
    if p == [] {
      assert p + q == q;
    } else {
      assert (p + q)[0] == p[0] && (p + q)[1..] == p[1..] + q;
      match p[0]
      case Elem(i) =>
        PutConcat(t.sequence[i], p[1..], q, v);
      case Secondary =>
        PutConcat(t.secondary, p[1..], q, v);
    }
  }

  /** The second of two writes to the same slot wins. */
  lemma {:induction false} PutPut(t: Command, p: Path, v: Command, w: Command)
    requires IsSlot(t, p)
    ensures Put(Put(t, p, v), p, w) == Put(t, p, w)
    decreases p
  {
    if p != [] {
      match p[0]
      case Elem(i) =>
        PutPut(t.sequence[i], p[1..], v, w);
      case Secondary =>
        PutPut(t.secondary, p[1..], v, w);
    }
  }

  /** A write strictly below a node keeps the node's kind, and a Sequential
      node keeps its length. */
  lemma PutKeepsShape(t: Command, q: Path, v: Command)
    requires q != [] && IsSlot(t, q)
    ensures var u := Put(t, q, v);
      && (t.Sequential? <==> u.Sequential?)
      && (t.Sequential? ==> |u.sequence| == |t.sequence|)
      && (HasSecondary(t) <==> HasSecondary(u))
  {
  }

  /** A write to the slot at `p + q` leaves the slot at `p` in place, with
      the node there keeping its shape when `q` is not empty. */
  lemma PutBelow(t: Command, p: Path, q: Path, v: Command)
    requires IsSlot(t, p + q)
    ensures IsSlot(Put(t, p + q, v), p)
    ensures At(Put(t, p + q, v), p) == Put(At(t, p), q, v)
  {
    SlotConcat(t, p, q);
    PutConcat(t, p, q, v);
    AtPut(t, p, Put(At(t, p), q, v));
  }
  /** Writing back what a slot holds changes nothing. */
  lemma {:induction false} PutAt(t: Command, p: Path)
    requires IsSlot(t, p)
    ensures Put(t, p, At(t, p)) == t
    decreases p
  {
    if p != [] {
      match p[0]
      case Elem(i) =>
        PutAt(t.sequence[i], p[1..]);
        assert t.sequence[i := t.sequence[i]] == t.sequence;
      case Secondary =>
        PutAt(t.secondary, p[1..]);
    }
  }

  /** A write to element `k` of the Sequential node at `p` replaces that
      element of its sequence. */
  lemma PutElement(t: Command, p: Path, k: nat, v: Command)
    requires IsSlot(t, p) && At(t, p).Sequential? && k < |At(t, p).sequence|
    ensures IsSlot(t, p + [Elem(k)])
    ensures Put(t, p + [Elem(k)], v) == Put(t, p, Sequential(At(t, p).sequence[k := v]))
  {
    SlotConcat(t, p, [Elem(k)]);
    PutConcat(t, p, [Elem(k)], v);
  }

  /** A write to the secondary of the node at `p` replaces that secondary. */
  lemma PutSecondary(t: Command, p: Path, v: Command)
    requires IsSlot(t, p) && HasSecondary(At(t, p))
    ensures IsSlot(t, p + [Secondary])
    ensures Put(t, p + [Secondary], v) == Put(t, p, At(t, p).(secondary := v))
  {
    SlotConcat(t, p, [Secondary]);
    PutConcat(t, p, [Secondary], v);
  }
}
