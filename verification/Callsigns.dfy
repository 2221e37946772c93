/**
 The callsign pools of src/agent_watcher.py: the visible pool, with a list of free names
 for each role and a table of those in use, and the pool of hidden workers. Reserving,
 releasing and launching conserve the names.
 */
module Callsigns {
  import opened Prelude
  import opened Sorting

  datatype Assignment = Assignment(role: string, record: string)

  datatype Pool = Pool(available: map<string, seq<string>>, inUse: map<string, Assignment>)

  const CHAMPION := "champion"

  /** `list.remove`: without the first occurrence. */
  function Remove(s: seq<string>, x: string): seq<string> {
    if s == [] then [] else if s[0] == x then s[1..] else [s[0]] + Remove(s[1..], x)
  }

  /** `_reserve_callsign` */
  function Reserve(p: Pool, callsign: string, record: string): Option<Pool> {
    if CHAMPION !in p.available || callsign in p.inUse || callsign !in p.available[CHAMPION] then None
    else Some(Pool(p.available[CHAMPION := Remove(p.available[CHAMPION], callsign)],
                   p.inUse[callsign := Assignment(CHAMPION, record)]))
  }

  /** A name goes back into its list unless it is there. */
  function Return(s: seq<string>, callsign: string): seq<string> {
    if callsign in s then s else Sorted(s + [callsign])
  }

  /** `_release_visible_callsign` */
  function Release(p: Pool, callsign: string, role: string): Option<Pool> {
    if callsign == "" || role !in [CHAMPION, "shotcaller"] then None
    else if callsign !in p.inUse || p.inUse[callsign].role != role || role !in p.available then None
    else Some(Pool(p.available[role := Return(p.available[role], callsign)], p.inUse - {callsign}))
  }

  datatype Worker = Worker(id: string, owner: string, model: string, effort: string, reason: string)

  /** No field of an assignment is empty. */
  predicate Assigned(w: Worker) { w.id != "" && w.owner != "" && w.model != "" && w.effort != "" && w.reason != "" }

  datatype Hidden = Hidden(available: seq<string>, active: map<string, Worker>)

  /** `allocate_hidden_worker`: the first free scientist, and the pool with it active. */
  function Allocate(h: Hidden, w: Worker): Option<(string, Hidden)> {
    if !Assigned(w) || h.available == [] || (exists c <- h.active :: h.active[c].id == w.id) then None
    else Some((h.available[0], Hidden(h.available[1..], h.active[h.available[0] := w])))
  }

  /** `release_hidden_worker`, its gates being met. */
  function Dismiss(h: Hidden, callsign: string, id: string, owner: string): Option<Hidden> {
    if callsign == "" || id == "" || owner == "" then None
    else if callsign !in h.active || h.active[callsign].id != id || h.active[callsign].owner != owner then None
    else Some(Hidden(Return(h.available, callsign), h.active - {callsign}))
  }

  // -------------------------------------------------------------- conservation

  /** Free lists without duplicates, each name in one place only. */
  predicate Sound(p: Pool) {
    && (forall r <- p.available :: NoDuplicates(p.available[r]))
    && (forall r <- p.available, t <- p.available :: r != t ==> forall c <- p.available[r] :: c !in p.available[t])
    && (forall c <- p.inUse :: p.inUse[c].role in p.available && forall r <- p.available :: c !in p.available[r])
  }

  /** All names of a role, free and in use. */
  function Names(p: Pool, role: string): set<string> {
    (if role in p.available then set c <- p.available[role] else {}) + set c <- p.inUse | p.inUse[c].role == role
  }

  predicate SoundHidden(h: Hidden) {
    NoDuplicates(h.available) && forall c <- h.active :: c !in h.available
  }

  function HiddenNames(h: Hidden): set<string> { (set c <- h.available) + h.active.Keys }

  lemma {:induction false} RemoveTakesOne(s: seq<string>, x: string)
    requires NoDuplicates(s)
    ensures NoDuplicates(Remove(s, x))
    ensures forall c :: c in Remove(s, x) <==> c in s && c != x
  {
    if s == [] {
    } else {
      assert s == [s[0]] + s[1..];
      HeadDistinct(s[0], s[1..]);
      RemoveTakesOne(s[1..], x);
      HeadDistinct(s[0], Remove(s[1..], x));
    }
  }

  lemma ReturnAddsOne(s: seq<string>, x: string)
    requires NoDuplicates(s)
    ensures NoDuplicates(Return(s, x))
    ensures forall c :: c in Return(s, x) <==> c in s || c == x
  {
    if x !in s {
      SortedNoDuplicates(s + [x]);
    }
  }

  /** A reservation keeps the pool sound and takes no name of any role away. */
  lemma ReserveConserves(p: Pool, callsign: string, record: string)
    requires Sound(p) && Reserve(p, callsign, record).Some?
    ensures var q := Reserve(p, callsign, record).value;
            Sound(q) && forall role :: Names(q, role) == Names(p, role)
  {
    RemoveTakesOne(p.available[CHAMPION], callsign);
    var q := Reserve(p, callsign, record).value;
    forall role
      ensures Names(q, role) == Names(p, role)
    {
      assert forall c :: c in Names(q, role) <==> c in Names(p, role);
    }
  }

  lemma ReleaseConserves(p: Pool, callsign: string, role: string)
    requires Sound(p) && Release(p, callsign, role).Some?
    ensures var q := Release(p, callsign, role).value;
            Sound(q) && forall r :: Names(q, r) == Names(p, r)
  {
    ReturnAddsOne(p.available[role], callsign);
    var q := Release(p, callsign, role).value;
    forall r
      ensures Names(q, r) == Names(p, r)
    {
      assert forall c :: c in Names(q, r) <==> c in Names(p, r);
    }
  }

  lemma AllocateConserves(h: Hidden, w: Worker)
    requires SoundHidden(h) && Allocate(h, w).Some?
    ensures var (c, k) := Allocate(h, w).value;
            SoundHidden(k) && HiddenNames(k) == HiddenNames(h) && c in h.available && c !in h.active
  {
    assert h.available == [h.available[0]] + h.available[1..];
  }

  lemma DismissConserves(h: Hidden, callsign: string, id: string, owner: string)
    requires SoundHidden(h) && Dismiss(h, callsign, id, owner).Some?
    ensures var k := Dismiss(h, callsign, id, owner).value;
            SoundHidden(k) && HiddenNames(k) == HiddenNames(h)
  {
    ReturnAddsOne(h.available, callsign);
  }

  // ----------------------------------------------------------- any sequence

  datatype Op =
    | ReserveOp(callsign: string, record: string)
    | ReleaseOp(callsign: string, role: string)
    | AllocateOp(worker: Worker)
    | DismissOp(callsign: string, id: string, owner: string)

  datatype Pools = Pools(visible: Pool, hidden: Hidden)

  /** One operation; a refused one leaves both pools alone. */
  function After(s: Pools, op: Op): Pools {
    match op
    case ReserveOp(c, record) =>
      var r := Reserve(s.visible, c, record);
      if r.Some? then s.(visible := r.value) else s
    case ReleaseOp(c, role) =>
      var r := Release(s.visible, c, role);
      if r.Some? then s.(visible := r.value) else s
    case AllocateOp(w) =>
      var r := Allocate(s.hidden, w);
      if r.Some? then s.(hidden := r.value.1) else s
    case DismissOp(c, id, owner) =>
      var r := Dismiss(s.hidden, c, id, owner);
      if r.Some? then s.(hidden := r.value) else s
  }

  function Run(s: Pools, ops: seq<Op>): Pools
    decreases |ops|
  {
    if ops == [] then s else Run(After(s, ops[0]), ops[1..])
  }

  /** Free and in-use names stay disjoint and free of duplicates, and their union never changes. */
  lemma {:induction false} NamesAreConserved(s: Pools, ops: seq<Op>)
    requires Sound(s.visible) && SoundHidden(s.hidden)
    ensures var t := Run(s, ops);
            && Sound(t.visible) && SoundHidden(t.hidden)
            && (forall role :: Names(t.visible, role) == Names(s.visible, role))
            && HiddenNames(t.hidden) == HiddenNames(s.hidden)
    decreases |ops|
  {
    if ops == [] {
    } else {
      match ops[0] {
        case ReserveOp(c, record) =>
          if Reserve(s.visible, c, record).Some? { ReserveConserves(s.visible, c, record); }
        case ReleaseOp(c, role) =>
          if Release(s.visible, c, role).Some? { ReleaseConserves(s.visible, c, role); }
        case AllocateOp(w) =>
          if Allocate(s.hidden, w).Some? { AllocateConserves(s.hidden, w); }
        case DismissOp(c, id, owner) =>
          if Dismiss(s.hidden, c, id, owner).Some? { DismissConserves(s.hidden, c, id, owner); }
      }
      NamesAreConserved(After(s, ops[0]), ops[1..]);
    }
  }

  // ------------------------------------------------ exactly when, and exactly what

  /** The names of a list. */
  function NamesIn(s: seq<string>): set<string> { set c <- s }

  /** A reservation goes through exactly for a free Champion name, which it takes from the list and puts in use. */
  lemma ReserveExactly(p: Pool, callsign: string, record: string)
    ensures Reserve(p, callsign, record).Some? <==>
              "champion" in p.available && callsign in p.available["champion"] && callsign !in p.inUse
    ensures Sound(p) && Reserve(p, callsign, record).Some? ==>
              var q := Reserve(p, callsign, record).value;
              && q.inUse == p.inUse[callsign := Assignment("champion", record)] && q.available.Keys == p.available.Keys
              && NamesIn(q.available["champion"]) == NamesIn(p.available["champion"]) - {callsign}
              && forall r <- p.available :: r != "champion" ==> q.available[r] == p.available[r]
  {
    if Sound(p) && Reserve(p, callsign, record).Some? {
      RemoveTakesOne(p.available["champion"], callsign);
    }
  }

  /** A release goes through exactly for a name that is in use by a Champion or Shotcaller of that role with a list. */
  lemma ReleaseExactly(p: Pool, callsign: string, role: string)
    ensures Release(p, callsign, role).Some? <==>
              && callsign != "" && (role == "champion" || role == "shotcaller") && role in p.available
              && callsign in p.inUse && p.inUse[callsign].role == role
    ensures Sound(p) && Release(p, callsign, role).Some? ==>
              var q := Release(p, callsign, role).value;
              && q.inUse == p.inUse - {callsign} && q.available.Keys == p.available.Keys
              && NamesIn(q.available[role]) == NamesIn(p.available[role]) + {callsign}
              && forall r <- p.available :: r != role ==> q.available[r] == p.available[r]
  {
    if Sound(p) && Release(p, callsign, role).Some? {
      ReturnAddsOne(p.available[role], callsign);
    }
  }

  /** An allocation goes through exactly for a complete assignment to a worker not active, and takes the first name. */
  lemma AllocateExactly(h: Hidden, w: Worker)
    ensures Allocate(h, w).Some? <==>
              && |w.id| > 0 && |w.owner| > 0 && |w.model| > 0 && |w.effort| > 0 && |w.reason| > 0
              && |h.available| > 0 && forall c <- h.active :: h.active[c].id != w.id
    ensures Allocate(h, w).Some? ==>
              var (name, next) := Allocate(h, w).value;
              name == h.available[0] && h.available == [name] + next.available && next.active == h.active[name := w]
  {
  }

  /** A dismissal goes through exactly for the worker and the owner that the name is active for. */
  lemma DismissExactly(h: Hidden, callsign: string, id: string, owner: string)
    ensures Dismiss(h, callsign, id, owner).Some? <==>
              && |callsign| > 0 && |id| > 0 && |owner| > 0 && callsign in h.active
              && h.active[callsign].id == id && h.active[callsign].owner == owner
    ensures SoundHidden(h) && Dismiss(h, callsign, id, owner).Some? ==>
              var next := Dismiss(h, callsign, id, owner).value;
              NamesIn(next.available) == NamesIn(h.available) + {callsign} && next.active == h.active - {callsign}
  {
    if SoundHidden(h) && Dismiss(h, callsign, id, owner).Some? {
      ReturnAddsOne(h.available, callsign);
    }
  }

  /** The same names free in each list, whatever their order, and the same in use. */
  predicate SamePool(p: Pool, q: Pool) {
    && p.inUse == q.inUse && p.available.Keys == q.available.Keys
    && forall r <- p.available :: (set c <- p.available[r]) == (set c <- q.available[r])
  }

  /** Releasing what was just reserved restores the pool up to the order of its lists. */
  lemma ReleaseUndoesReserve(p: Pool, callsign: string, record: string)
    requires Sound(p) && Reserve(p, callsign, record).Some? && callsign != ""
    ensures Release(Reserve(p, callsign, record).value, callsign, CHAMPION).Some?
    ensures SamePool(p, Release(Reserve(p, callsign, record).value, callsign, CHAMPION).value)
  {
    var q := Reserve(p, callsign, record).value;
    RemoveTakesOne(p.available[CHAMPION], callsign);
    ReturnAddsOne(q.available[CHAMPION], callsign);
    var r := Release(q, callsign, CHAMPION).value;
    assert forall c :: c in r.available[CHAMPION] <==> c in p.available[CHAMPION];
    assert r.inUse == p.inUse;
  }

  // --------------------------------------------------------- the hidden pool

  class HiddenPool {
    var available: seq<string>
    var active: map<string, Worker>

    function Contents(): Hidden
      reads this
    {
      Hidden(available, active)
    }

    constructor (names: seq<string>)
      ensures Contents() == Hidden(names, map[])
    {
      available, active := names, map[];
    }

    /** `allocate_hidden_worker` */
    method AllocateHiddenWorker(w: Worker) returns (callsign: Option<string>)
      requires SoundHidden(Contents())
      modifies this
      ensures SoundHidden(Contents()) && HiddenNames(Contents()) == HiddenNames(old(Contents()))
      ensures callsign.Some? <==> Allocate(old(Contents()), w).Some?
      ensures callsign.None? ==> Contents() == old(Contents())
      ensures callsign.Some? ==> (callsign.value, Contents()) == Allocate(old(Contents()), w).value
                                 && callsign.value !in old(active) && active[callsign.value] == w
    {
      if !Assigned(w) || (exists c <- active :: active[c].id == w.id) || available == [] {
        return None;
      }
      AllocateConserves(Contents(), w);
      var name := available[0];
      available := available[1..];
      active := active[name := w];
      return Some(name);
    }

    /** `release_hidden_worker`; `gates` is whether its release evidence is complete. */
    method ReleaseHiddenWorker(callsign: string, id: string, owner: string, gates: bool) returns (ok: bool)
      requires SoundHidden(Contents())
      modifies this
      ensures SoundHidden(Contents()) && HiddenNames(Contents()) == HiddenNames(old(Contents()))
      ensures ok <==> gates && Dismiss(old(Contents()), callsign, id, owner).Some?
      ensures Contents() == if ok then Dismiss(old(Contents()), callsign, id, owner).value else old(Contents())
      ensures ok ==> callsign in available && callsign !in active
    {
      if !gates || callsign == "" || id == "" || owner == "" {
        return false;
      }
      if callsign !in active || active[callsign].id != id || active[callsign].owner != owner {
        return false;
      }
      DismissConserves(Contents(), callsign, id, owner);
      ReturnAddsOne(available, callsign);
      active := active - {callsign};
      if callsign !in available {
        available := Sorted(available + [callsign]);
      }
      return true;
    }
  }
}
