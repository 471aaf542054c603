/**
 * The register-mapped hardware bus that both the SCA transaction layer and the
 * TTC phase scanner drive with `readReg`/`writeReg`.
 *
 * The bus is a class with a map from register path to 32-bit value (the last
 * value written to each register) and a trace of every access in order.  What
 * a read returns is not simulated: it is the answer of an arbitrary hardware
 * oracle `respond`, a function of everything that happened on the bus before
 * and of the path read.  Every value read is therefore an input to the model.
 */
module RegisterBus {

  type Word = bv32
  type Path = string

  /** One register access, with the value read or written. */
  datatype Access = Read(path: Path, value: Word) | Write(path: Path, value: Word)

  /** The effect of one access on the register map: only writes change it. */
  function Apply(m: map<Path, Word>, a: Access): map<Path, Word>
  {
    match a
    case Read(_, _) => m
    case Write(p, v) => m[p := v]
  }

  /** The register map after the accesses of `t` are applied in order to `m`. */
  function Replay(m: map<Path, Word>, t: seq<Access>): map<Path, Word>
    decreases |t|
  {
    if t == [] then m else Apply(Replay(m, t[..|t| - 1]), t[|t| - 1])
  }

  predicate WritesTo(a: Access, p: Path)
  {
    a.Write? && a.path == p
  }

  /** No access of `t` writes register `p`. */
  predicate NoWriteTo(t: seq<Access>, p: Path)
  {
    forall k :: 0 <= k < |t| ==> !WritesTo(t[k], p)
  }

  /** A trace made of two parts that never write `p` never writes `p`. */
  lemma NoWriteToAppend(a: seq<Access>, b: seq<Access>, p: Path)
    requires NoWriteTo(a, p) && NoWriteTo(b, p)
    ensures NoWriteTo(a + b, p)
  {
    forall k | 0 <= k < |a + b| ensures !WritesTo((a + b)[k], p) {
      if k >= |a| {
        assert (a + b)[k] == b[k - |a|];
      }
    }
  }

  /** Concatenation of traces is associative. */
  lemma AppendAssoc(a: seq<Access>, b: seq<Access>, c: seq<Access>)
    ensures a + b + c == a + (b + c)
  {
  }

  /** Replaying two traces one after the other is replaying their concatenation. */
  lemma {:induction false} ReplayAppend(m: map<Path, Word>, t1: seq<Access>, t2: seq<Access>)
    ensures Replay(m, t1 + t2) == Replay(Replay(m, t1), t2)
    decreases |t2|
  {
    if t2 == [] {
      assert t1 + t2 == t1;
    } else {
      var front := t2[..|t2| - 1];
      assert (t1 + t2)[..|t1 + t2| - 1] == t1 + front;
      assert (t1 + t2)[|t1 + t2| - 1] == t2[|t2| - 1];
      ReplayAppend(m, t1, front);
    }
  }

  /** A trace that never writes `p` leaves register `p` as it was. */
  lemma {:induction false} ReplayKeeps(m: map<Path, Word>, t: seq<Access>, p: Path)
    requires NoWriteTo(t, p)
    ensures (p in Replay(m, t)) == (p in m)
    ensures p in m ==> Replay(m, t)[p] == m[p]
    decreases |t|
  {
    if t != [] {
      var front := t[..|t| - 1];
      assert NoWriteTo(front, p) by {
        forall k | 0 <= k < |front| ensures !WritesTo(front[k], p) {
          assert front[k] == t[k];
        }
      }
      ReplayKeeps(m, front, p);
      assert !WritesTo(t[|t| - 1], p);
    }
  }

  class Bus {
    /** The last value written to each register (or its value before the first access). */
    var regs: map<Path, Word>
    /** Every access so far, oldest first. */
    var trace: seq<Access>
    /** The hardware: what a read of a path returns after a given history. */
    const respond: (seq<Access>, Path) -> Word
    ghost const initial: map<Path, Word>

    /** The register map is always the initial map with the trace's writes applied. */
    ghost predicate Valid()
      reads this
    {
      regs == Replay(initial, trace)
    }

    constructor (respond: (seq<Access>, Path) -> Word, regs: map<Path, Word>)
      ensures Valid()
      ensures this.respond == respond && this.regs == regs && trace == []
    {
      this.respond := respond;
      this.regs := regs;
      this.initial := regs;
      this.trace := [];
    }

    /** `readReg`: the value comes from the hardware; the map is not changed. */
    method ReadReg(path: Path) returns (v: Word)
      requires Valid()
      modifies this
      ensures Valid()
      ensures v == respond(old(trace), path)
      ensures trace == old(trace) + [Read(path, v)]
      ensures regs == old(regs)
    {
      v := respond(trace, path);
      trace := trace + [Read(path, v)];
      assert trace[..|trace| - 1] == old(trace);
    }

    /** `writeReg`: the register takes the value and the write is recorded. */
    method WriteReg(path: Path, v: Word)
      requires Valid()
      modifies this
      ensures Valid()
      ensures trace == old(trace) + [Write(path, v)]
      ensures regs == old(regs)[path := v]
    {
      regs := regs[path := v];
      trace := trace + [Write(path, v)];
      assert trace[..|trace| - 1] == old(trace);
    }
  }
}
