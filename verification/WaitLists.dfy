/** Threads blocked on a semaphore, a memory pool or a mailbox: the wait list, and where each thread
    stands in its call. A call that has to wait comes back when its rt_schedule does: as a rule once its
    thread was taken off the list, but at once if the scheduler is locked or nothing else is ready. */
module WaitLists {
  import opened Sequences
  import opened WaitOrder

  type Tid = nat

  datatype Error = EOK | ERROR | ETIMEOUT | EFULL

  /** A thread that waits is on the list; one that is off it again was resumed, timed out or reset, as
      `error` says. */
  datatype Pc<A> = Idle | Waits(arg: A, forever: bool, error: Error)

  datatype Side<A> = Side(waiting: seq<Tid>, threads: map<Tid, Pc<A>>)

  /** The thread is in no call; or in one that has to wait. */
  predicate OutOf<A>(s: Side<A>, t: Tid) { t in s.threads ==> s.threads[t].Idle? }

  predicate InCall<A>(s: Side<A>, t: Tid) { t in s.threads && s.threads[t].Waits? }

  /** It was taken off the list and is about to go on. */
  predicate GoesOn<A>(s: Side<A>, t: Tid) { InCall(s, t) && t !in s.waiting }

  /** rt_ipc_list_suspend */
  function Join<A>(s: Side<A>, t: Tid, arg: A, forever: bool, place: nat): Side<A> {
    Side(Insert(s.waiting, place, t), s.threads[t := Waits(arg, forever, EOK)])
  }

  /** The call returns. */
  function Done<A>(s: Side<A>, t: Tid): Side<A> { s.(threads := s.threads[t := Idle]) }

  /** rt_ipc_list_resume, if anybody waits. */
  function ResumeFirst<A>(s: Side<A>): Side<A> { if s.waiting == [] then s else s.(waiting := s.waiting[1..]) }

  /** rt_thread_timeout */
  function Expire<A>(s: Side<A>, t: Tid): Side<A>
    requires t in s.threads && s.threads[t].Waits?
  {
    Side(Remove(s.waiting, t), s.threads[t := s.threads[t].(error := ETIMEOUT)])
  }

  /** rt_thread_resume from outside. */
  function Stray<A>(s: Side<A>, t: Tid): Side<A> { s.(waiting := Remove(s.waiting, t)) }

  /** rt_ipc_list_resume_all */
  function FailAll<A>(s: Side<A>): Side<A> {
    Side([], map t | t in s.threads ::
           if t in s.waiting && s.threads[t].Waits? then s.threads[t].(error := ERROR) else s.threads[t])
  }

  // ----- what holds of a wait list

  ghost predicate SideOk<A(!new)>(s: Side<A>) {
    Distinct(s.waiting) && forall t :: t in s.waiting ==> t in s.threads && s.threads[t].Waits? && s.threads[t].error == EOK
  }

  /** The threads taken off the list with no error that have not gone on yet. */
  ghost function Woken<A(!new)>(s: Side<A>): set<Tid> {
    set t | t in s.threads && s.threads[t].Waits? && s.threads[t].error == EOK && t !in s.waiting
  }

  /** No lost wakeup: while somebody waits, everything there is to take has a woken thread coming for it. */
  ghost predicate Served<A(!new)>(s: Side<A>, available: int) { s.waiting != [] ==> available <= |Woken(s)| }

  lemma JoinSpec<A(!new)>(s: Side<A>, t: Tid, arg: A, forever: bool, place: nat)
    requires SideOk(s) && (OutOf(s, t) || GoesOn(s, t))
    ensures var r := Join(s, t, arg, forever, place); SideOk(r) && Woken(r) == Woken(s) - {t}
  {
    InsertSpec(s.waiting, place, t);
  }

  lemma DoneSpec<A(!new)>(s: Side<A>, t: Tid)
    requires SideOk(s) && (OutOf(s, t) || GoesOn(s, t))
    ensures SideOk(Done(s, t)) && Woken(Done(s, t)) == Woken(s) - {t} && Done(s, t).waiting == s.waiting
  {
  }

  /** A call that goes on while its thread is on the list leaves a node behind, or links it in twice. */
  lemma VainSpec<A(!new)>(s: Side<A>, t: Tid, arg: A, forever: bool, place: nat)
    requires SideOk(s) && t in s.waiting
    ensures !SideOk(Done(s, t)) && !SideOk(Join(s, t, arg, forever, place))
  {
    assert Done(s, t).threads[t].Idle?;
    InsertedTwice(s.waiting, place, t);
  }

  lemma ResumeFirstSpec<A(!new)>(s: Side<A>)
    requires SideOk(s)
    ensures SideOk(ResumeFirst(s)) && (s.waiting == [] ==> ResumeFirst(s) == s)
    ensures s.waiting != [] ==> |Woken(ResumeFirst(s))| == |Woken(s)| + 1
  {
    if s.waiting != [] {
      TailSpec(s.waiting);
      assert s.waiting[0] in s.waiting;
      assert Woken(ResumeFirst(s)) == Woken(s) + {s.waiting[0]};
    }
  }

  lemma ExpireSpec<A(!new)>(s: Side<A>, t: Tid)
    requires SideOk(s) && t in s.waiting
    ensures SideOk(Expire(s, t)) && Woken(Expire(s, t)) == Woken(s) && (Expire(s, t).waiting != [] ==> s.waiting != [])
  {
    RemoveSpec(s.waiting, t);
  }

  lemma StraySpec<A(!new)>(s: Side<A>, t: Tid)
    requires SideOk(s) && t in s.waiting
    ensures SideOk(Stray(s, t)) && |Woken(Stray(s, t))| == |Woken(s)| + 1
  {
    RemoveSpec(s.waiting, t);
    assert Woken(Stray(s, t)) == Woken(s) + {t};
  }

  lemma FailAllSpec<A(!new)>(s: Side<A>)
    requires SideOk(s)
    ensures SideOk(FailAll(s)) && Woken(FailAll(s)) == Woken(s) && FailAll(s).waiting == []
  {
  }

  // ----- who is resumed

  /** Exactly `w` leaves the list, and it is at least as urgent as all that stay. */
  ghost predicate Wakes<A(!new)>(s: Side<A>, r: Side<A>, w: Tid, rank: Tid -> nat) {
    && w in s.waiting && r.threads == s.threads && InOrder(r.waiting, rank)
    && forall u :: (u in r.waiting <==> u in s.waiting && u != w) && (u in r.waiting ==> rank(w) <= rank(u))
  }

  /** `rank` is the priority with which the threads joined, or when they did. */
  lemma WakesFirst<A(!new)>(s: Side<A>, rank: Tid -> nat)
    requires SideOk(s) && InOrder(s.waiting, rank) && s.waiting != []
    ensures Wakes(s, ResumeFirst(s), s.waiting[0], rank)
  {
    TailSpec(s.waiting);
    RestInOrder(s.waiting, rank);
  }

  /** A list stays in order, whoever joins at its place or leaves. */
  lemma SideInOrder<A(!new)>(s: Side<A>, t: Tid, arg: A, forever: bool, rank: Tid -> nat)
    requires InOrder(s.waiting, rank)
    ensures InOrder(Join(s, t, arg, forever, PlaceOf(true, s.waiting, rank, rank(t))).waiting, rank)
    ensures InOrder(Stray(s, t).waiting, rank) && InOrder(ResumeFirst(s).waiting, rank)
    ensures InCall(s, t) ==> InOrder(Expire(s, t).waiting, rank)
  {
    JoinInOrder(s.waiting, rank, t);
    RemoveInOrder(s.waiting, rank, t);
    if s.waiting != [] { RestInOrder(s.waiting, rank); }
  }

  // ----- calls, as their callers know them

  /** What a thread asked for, and what has become of it meanwhile. */
  datatype Call<A> = Call(arg: A, forever: bool, fate: Error)

  type Calls<A> = map<Tid, Call<A>>

  function Entered<A>(c: Calls<A>, t: Tid, arg: A, forever: bool): Calls<A> { c[t := Call(arg, forever, EOK)] }

  function TimedOut<A>(c: Calls<A>, t: Tid): Calls<A> { if t in c then c[t := c[t].(fate := ETIMEOUT)] else c }

  function Failed<A>(c: Calls<A>, ts: seq<Tid>): Calls<A> {
    map t | t in c :: if t in ts then c[t].(fate := ERROR) else c[t]
  }

  /** The threads that wait are those in a call, and carry its arguments and its fate. */
  ghost predicate Knows<A(!new)>(s: Side<A>, c: Calls<A>) {
    forall t :: (t in c <==> InCall(s, t)) && (t in c ==> s.threads[t] == Waits(c[t].arg, c[t].forever, c[t].fate))
  }

  lemma JoinKnown<A(!new)>(s: Side<A>, c: Calls<A>, t: Tid, arg: A, forever: bool, place: nat)
    requires Knows(s, c)
    ensures Knows(Join(s, t, arg, forever, place), Entered(c, t, arg, forever))
  {
  }

  lemma DoneKnown<A(!new)>(s: Side<A>, c: Calls<A>, t: Tid)
    requires Knows(s, c)
    ensures Knows(Done(s, t), c - {t})
  {
  }

  lemma ExpireKnown<A(!new)>(s: Side<A>, c: Calls<A>, t: Tid)
    requires Knows(s, c) && InCall(s, t)
    ensures Knows(Expire(s, t), TimedOut(c, t))
  {
  }

  lemma FailAllKnown<A(!new)>(s: Side<A>, c: Calls<A>)
    requires Knows(s, c)
    ensures Knows(FailAll(s), Failed(c, s.waiting))
  {
    assert forall t :: t in Failed(c, s.waiting) <==> t in c;
  }
}
