// Thread identities and program-counter bookkeeping shared by every protocol
// model in this project.
module Threads {
  /** A kernel thread id; 0 is never a thread. */
  type Tid = x: int | 0 < x witness 1

  /** The threads whose program counter satisfies `p`. */
  ghost function Where<P>(pc: map<Tid, P>, p: P -> bool): set<Tid> {
    set t | t in pc && p(pc[t])
  }

  ghost function One(b: bool): nat {
    if b then 1 else 0
  }

  lemma SizeWithout(s: set<Tid>, t: Tid)
    ensures |s - {t}| == |s| - One(t in s)
  {
    assert t in s ==> s == (s - {t}) + {t};
    assert t !in s ==> s == s - {t};
  }

  /** Moving one thread changes the population of a program point by at most that thread. */
  lemma WhereUpdate<P>(pc: map<Tid, P>, t: Tid, v: P, p: P -> bool)
    requires t in pc
    ensures |Where(pc[t := v], p)| == |Where(pc, p)| - One(p(pc[t])) + One(p(v))
  {
    var before := Where(pc, p);
    var after := Where(pc[t := v], p);
    assert after - {t} == before - {t};
    SizeWithout(before, t);
    SizeWithout(after, t);
  }
}
