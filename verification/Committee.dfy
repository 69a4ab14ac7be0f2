/** Committee formation (network.go, network_helper.go): candidates collect per round until ten have
    arrived or a timer fires, and a queued finalisation then broadcasts the committee. Handlers hold
    the server's lock and are one step each. A finalisation does not: it is two steps, and anything
    may run between them, other finalisations of the same round included. */
module Committee {
  import opened Bytes
  import opened CosiGroup
  import opened Cosi
  import opened Cosigners

  const THRESHOLD: nat := 10
  const GC_WINDOW: nat := 4

  type Round = r: nat | r < TWO64 witness 0

  datatype Candidate = Candidate(nodeId: string, publicKey: seq<byte>, commit: seq<byte>)

  datatype Finalized = Finalized(
    round: Round, nodeIds: seq<string>, publicKeys: seq<seq<byte>>, aggPubKey: seq<byte>, aggCommit: Aggregated)

  /** A finalisation under way: the candidates it read, which are those of its round from number `from` on. */
  datatype Task = Task(round: Round, from: nat, members: seq<Candidate>)

  /** Where an accepted candidate is: in the table, or removed by the end of a finalisation or the collector. */
  datatype Place = Here | Ended | Collected

  /** An accepted candidate, the number of finalisations that have read it, and where it is. */
  datatype Entry = Entry(candidate: Candidate, taken: nat, place: Place)

  /** The server's tables, the timers still running, the finalisations ready to run and under way, and the
      history: per round the accepted candidates in order of arrival, and all committees broadcast. */
  datatype Server = Server(
    processed: set<Round>, timers: map<Round, nat>, candidates: map<Round, seq<Candidate>>,
    armed: map<nat, Round>, nextTimer: nat, queued: multiset<Round>, running: seq<Task>,
    book: map<Round, seq<Entry>>, done: seq<Task>, sent: seq<Finalized>)

  const EMPTY := Server({}, map[], map[], map[], 0, multiset{}, [], map[], [], [])

  function Get<T>(m: map<Round, seq<T>>, r: Round): seq<T> {
    if r in m then m[r] else []
  }

  // ---- the steps ----

  function NodeIds(cs: seq<Candidate>): (r: seq<string>)
    ensures |r| == |cs| && forall i :: 0 <= i < |cs| ==> r[i] == cs[i].nodeId
  {
    if cs == [] then [] else NodeIds(cs[..|cs| - 1]) + [cs[|cs| - 1].nodeId]
  }

  function PublicKeys(cs: seq<Candidate>): (r: seq<seq<byte>>)
    ensures |r| == |cs| && forall i :: 0 <= i < |cs| ==> r[i] == cs[i].publicKey
  {
    if cs == [] then [] else PublicKeys(cs[..|cs| - 1]) + [cs[|cs| - 1].publicKey]
  }

  function Commits(cs: seq<Candidate>): (r: seq<seq<byte>>)
    ensures |r| == |cs| && forall i :: 0 <= i < |cs| ==> r[i] == cs[i].commit
  {
    if cs == [] then [] else Commits(cs[..|cs| - 1]) + [cs[|cs| - 1].commit]
  }

  predicate Decodable<G>(c: Curve<G>, cs: seq<Candidate>) {
    DecodeKeys(c, ZERO32, PublicKeys(cs)).Some?
  }

  /** The broadcast for a list of candidates: ids and keys in arrival order beside the aggregates. */
  function Formed<G>(c: Curve<G>, round: Round, cs: seq<Candidate>): Finalized
    requires Decodable(c, cs)
  {
    Finalized(round, NodeIds(cs), PublicKeys(cs),
              c.enc(Sum(c, DecodeKeys(c, ZERO32, PublicKeys(cs)).value)),
              CommitSum(c, |cs|, Commits(cs)))
  }

  /** r + 4 in 64-bit arithmetic. */
  function Later(r: Round): Round {
    if r + GC_WINDOW < TWO64 then r + GC_WINDOW else r + GC_WINDOW - TWO64
  }

  predicate Old(r: Round, cur: Round) { Later(r) < cur }

  /** One more finalisation has read the entries still in the table. */
  function Read(es: seq<Entry>): (r: seq<Entry>)
    ensures |r| == |es|
    ensures forall i :: 0 <= i < |es| ==> r[i] == if es[i].place == Here then es[i].(taken := es[i].taken + 1)
        else es[i]
  {
    seq(|es|, i requires 0 <= i < |es| => if es[i].place == Here then es[i].(taken := es[i].taken + 1) else es[i])
  }

  /** The entries still in the table are removed from it. */
  function Remove(es: seq<Entry>, place: Place): (r: seq<Entry>)
    ensures |r| == |es|
    ensures forall i :: 0 <= i < |es| ==> r[i] == if es[i].place == Here then es[i].(place := place) else es[i]
  {
    seq(|es|, i requires 0 <= i < |es| => if es[i].place == Here then es[i].(place := place) else es[i])
  }

  /** gcOldRounds: forget the candidates of old rounds. Their timers stay. */
  function Collect(s: Server, cur: Round): Server {
    var gone := set r | r in s.candidates && Old(r, cur);
    s.(candidates := s.candidates - gone,
       book := map r | r in s.book :: if r in gone then Remove(s.book[r], Collected) else s.book[r])
  }

  function Register(s: Server, r: Round, x: Candidate): Server {
    s.(candidates := s.candidates[r := Get(s.candidates, r) + [x]],
       book := s.book[r := Get(s.book, r) + [Entry(x, 0, Here)]])
  }

  /** Start the round's timer unless it has one. */
  function EnsureTimer(s: Server, r: Round): Server {
    if r in s.timers then s
    else s.(timers := s.timers[r := s.nextTimer], armed := s.armed[s.nextTimer := r], nextTimer := s.nextTimer + 1)
  }

  /** Enough candidates: stop the timer and queue a finalisation. */
  function Trigger(s: Server, r: Round): Server
    requires r in s.timers
  {
    s.(armed := s.armed - {s.timers[r]}, queued := s.queued + multiset{r})
  }

  /** appendCandidate for a round that is not marked as processed. */
  function Append(s: Server, r: Round, x: Candidate): Server {
    var t := EnsureTimer(Register(s, r, x), r);
    if |t.candidates[r]| >= THRESHOLD then Trigger(t, r) else t
  }

  /** The number of the first entry still in the table. */
  function FirstHere(es: seq<Entry>): (b: nat)
    ensures b <= |es| && (b < |es| ==> es[b].place == Here)
    ensures forall i :: 0 <= i < b ==> es[i].place != Here
  {
    if es == [] || es[0].place == Here then 0 else 1 + FirstHere(es[1..])
  }

  /** The start of tryFinalize: mark the round, forget its timer, read its candidates. */
  function BeginTask(s: Server, r: Round): Server {
    var es := Get(s.book, r);
    s.(processed := s.processed + {r}, timers := s.timers - {r}, queued := s.queued - multiset{r},
       running := s.running + [Task(r, FirstHere(es), Get(s.candidates, r))], book := s.book[r := Read(es)])
  }

  /** The end of tryFinalize: broadcast what was read, forget the round's candidates, unmark it. */
  function EndTask<G>(c: Curve<G>, s: Server, i: nat): Server
    requires i < |s.running| && Decodable(c, s.running[i].members)
  {
    var t := s.running[i];
    s.(processed := s.processed - {t.round}, candidates := s.candidates - {t.round},
       running := s.running[..i] + s.running[i + 1..], book := s.book[t.round := Remove(Get(s.book, t.round), Ended)],
       done := s.done + [t], sent := s.sent + [Formed(c, t.round, t.members)])
  }

  datatype Event =
    | Request(round: Round, candidate: Candidate)  // a RequestCommittee call
    | Fire(timer: nat)                             // a running timer expires
    | Begin(round: Round)                          // a queued finalisation starts
    | End(task: nat)                               // a finalisation under way ends
    | Leave                                        // a JoinNetwork stream ends

  predicate Enabled<G>(c: Curve<G>, s: Server, e: Event) {
    match e
    case Request(_, _) => true
    case Fire(t) => t in s.armed
    case Begin(r) => s.queued[r] > 0
    case End(i) => i < |s.running| && Decodable(c, s.running[i].members)
    case Leave => true
  }

  function Step<G>(c: Curve<G>, s: Server, e: Event): Server
    requires Enabled(c, s, e)
  {
    match e
    case Request(r, x) => if r in s.processed then s else Collect(Append(s, r, x), r)
    case Fire(t) => s.(armed := s.armed - {t}, queued := s.queued + multiset{s.armed[t]})
    case Begin(r) => BeginTask(s, r)
    case End(i) => EndTask(c, s, i)
    case Leave => s.(processed := {})
  }

  // ---- what every reachable state satisfies ----

  /** A round with a timer entry will be finalised: the timer runs or a finalisation is queued. */
  ghost predicate Covered(s: Server, r: Round) {
    r in s.timers && ((s.timers[r] in s.armed && s.armed[s.timers[r]] == r) || s.queued[r] > 0)
  }

  /** Timer entries are covered, name different timers, and a running timer belongs to its entry. */
  ghost predicate TimersOk(s: Server) {
    && (forall r :: r in s.timers ==> Covered(s, r) && s.timers[r] < s.nextTimer)
    && (forall t :: t in s.armed ==> t < s.nextTimer)
    && (forall r, q :: r in s.timers && q in s.timers && s.timers[r] == s.timers[q] ==> r == q)
  }

  ghost predicate UnderWay(s: Server, r: Round) { exists i :: 0 <= i < |s.running| && s.running[i].round == r }

  /** Every pending round has a timer entry or a finalisation under way. */
  ghost predicate NobodyStranded(s: Server) {
    TimersOk(s) && forall r :: r in s.candidates ==> r in s.timers || UnderWay(s, r)
  }

  /** The entries still in the table are the last ones, and are these candidates. */
  ghost predicate Suffix(es: seq<Entry>, cs: seq<Candidate>) {
    && |cs| <= |es|
    && (forall i :: 0 <= i < |es| ==> (es[i].place == Here <==> |es| - |cs| <= i))
    && (forall i :: |es| - |cs| <= i < |es| ==> es[i].candidate == cs[i - (|es| - |cs|)])
  }

  /** The table holds the candidates from some point on, in order of arrival. */
  ghost predicate TableOk(s: Server, r: Round) {
    Suffix(Get(s.book, r), Get(s.candidates, r)) && (r in s.candidates ==> s.candidates[r] != [])
  }

  predicate Includes(t: Task, r: Round, i: nat) { t.round == r && t.from <= i < t.from + |t.members| }

  /** In how many of the committees is candidate i of round r? */
  function Count(ts: seq<Task>, r: Round, i: nat): nat {
    if ts == [] then 0 else Count(ts[..|ts| - 1], r, i) + if Includes(ts[|ts| - 1], r, i) then 1 else 0
  }

  /** A committee consists of consecutive accepted candidates of its round. */
  ghost predicate TaskOk(s: Server, t: Task) {
    var es := Get(s.book, t.round);
    && t.from + |t.members| <= |es|
    && forall k :: 0 <= k < |t.members| ==> t.members[k] == es[t.from + k].candidate
  }

  /** Each accepted candidate is in as many committees, broadcast or under way, as have read it. */
  ghost predicate Counted(s: Server, r: Round) {
    forall i :: 0 <= i < |Get(s.book, r)| ==> Get(s.book, r)[i].taken == Count(s.running, r, i) + Count(s.done, r, i)
  }

  /** The broadcasts are those of the finished tasks, in order. */
  ghost predicate Announced<G>(c: Curve<G>, s: Server) {
    && |s.sent| == |s.done|
    && forall i :: 0 <= i < |s.done| ==>
         Decodable(c, s.done[i].members) && s.sent[i] == Formed(c, s.done[i].round, s.done[i].members)
  }

  ghost predicate BookOk(s: Server) {
    && (forall r: Round :: TableOk(s, r) && Counted(s, r))
    && (forall i :: 0 <= i < |s.running| ==> TaskOk(s, s.running[i]))
    && (forall i :: 0 <= i < |s.done| ==> TaskOk(s, s.done[i]))
  }

  ghost predicate Inv<G>(c: Curve<G>, s: Server) { NobodyStranded(s) && BookOk(s) && Announced(c, s) }

  // ---- timers: every step strands nobody ----

  lemma EnsureTimerKeeps(s: Server, r: Round)
    requires TimersOk(s)
    ensures TimersOk(EnsureTimer(s, r))
  {
    var t := EnsureTimer(s, r);
    forall q | q in t.timers
      ensures Covered(t, q) && t.timers[q] < t.nextTimer
    {
      assert q in s.timers ==> Covered(s, q);
    }
  }

  lemma TriggerKeeps(s: Server, r: Round)
    requires TimersOk(s) && r in s.timers
    ensures TimersOk(Trigger(s, r))
  {
    var t := Trigger(s, r);
    forall q | q in t.timers
      ensures Covered(t, q) && t.timers[q] < t.nextTimer
    {
      assert Covered(s, q);
    }
  }

  /** Timer entries may disappear and finalisations be queued; the clock itself is the same. */
  lemma FewerEntries(s: Server, t: Server)
    requires TimersOk(s) && t.armed == s.armed && t.nextTimer == s.nextTimer
    requires forall q :: q in t.timers ==> q in s.timers && t.timers[q] == s.timers[q] && t.queued[q] >= s.queued[q]
    ensures TimersOk(t)
  {
    forall q | q in t.timers
      ensures Covered(t, q)
    {
      assert Covered(s, q);
    }
  }

  lemma AppendTimers(s: Server, r: Round, x: Candidate)
    requires TimersOk(s)
    ensures var t := Append(s, r, x);
            && TimersOk(t) && r in t.timers && t.running == s.running
            && (forall q :: q in s.timers ==> q in t.timers)
            && (forall q :: q in t.candidates ==> q == r || q in s.candidates)
  {
    var t := Register(s, r, x);
    FewerEntries(s, t);
    EnsureTimerKeeps(t, r);
    TriggerKeeps(EnsureTimer(t, r), r);
  }

  lemma RequestStrandsNobody(s: Server, r: Round, x: Candidate)
    requires NobodyStranded(s)
    ensures NobodyStranded(Collect(Append(s, r, x), r))
  {
    var t := Append(s, r, x);
    AppendTimers(s, r, x);
    FewerEntries(t, Collect(t, r));
    SameTasks(s, Collect(t, r));
  }

  lemma FireStrandsNobody(s: Server, timer: nat)
    requires NobodyStranded(s) && timer in s.armed
    ensures NobodyStranded(s.(armed := s.armed - {timer}, queued := s.queued + multiset{s.armed[timer]}))
  {
    var t := s.(armed := s.armed - {timer}, queued := s.queued + multiset{s.armed[timer]});
    forall q | q in t.timers
      ensures Covered(t, q)
    {
      assert Covered(s, q);
    }
    SameTasks(s, t);
  }

  lemma SameTasks(s: Server, t: Server)
    requires t.running == s.running
    ensures forall q :: UnderWay(s, q) <==> UnderWay(t, q)
  {
    forall q
      ensures UnderWay(s, q) <==> UnderWay(t, q)
    {
      if i :| 0 <= i < |s.running| && s.running[i].round == q {
        assert t.running[i].round == q;
      }
    }
  }

  lemma BeginUnderWay(s: Server, r: Round, q: Round)
    ensures UnderWay(BeginTask(s, r), q) <==> q == r || UnderWay(s, q)
  {
    var t := BeginTask(s, r);
    assert t.running[|s.running|].round == r;
    if i :| 0 <= i < |s.running| && s.running[i].round == q {
      assert t.running[i].round == q;
    }
  }

  /** The tasks that go on when one ends. */
  lemma EndUnderWay(ts: seq<Task>, i: nat, j: nat)
    requires i < |ts| && j < |ts| && j != i
    ensures var us := ts[..i] + ts[i + 1..]; var k := if j < i then j else j - 1; k < |us| && us[k] == ts[j]
  {
  }

  lemma EndKeepsUnderWay<G>(c: Curve<G>, s: Server, i: nat, q: Round)
    requires i < |s.running| && Decodable(c, s.running[i].members) && UnderWay(s, q) && q != s.running[i].round
    ensures UnderWay(EndTask(c, s, i), q)
  {
    var j :| 0 <= j < |s.running| && s.running[j].round == q;
    EndUnderWay(s.running, i, j);
    assert EndTask(c, s, i).running[if j < i then j else j - 1].round == q;
  }

  lemma BeginStrandsNobody(s: Server, r: Round)
    requires NobodyStranded(s)
    ensures NobodyStranded(BeginTask(s, r))
  {
    var t := BeginTask(s, r);
    FewerEntries(s, t);
    forall q | q in t.candidates
      ensures q in t.timers || UnderWay(t, q)
    {
      BeginUnderWay(s, r, q);
    }
  }

  lemma EndStrandsNobody<G>(c: Curve<G>, s: Server, i: nat)
    requires NobodyStranded(s) && i < |s.running| && Decodable(c, s.running[i].members)
    ensures NobodyStranded(EndTask(c, s, i))
  {
    var t := EndTask(c, s, i);
    FewerEntries(s, t);
    forall q | q in t.candidates
      ensures q in t.timers || UnderWay(t, q)
    {
      if q !in s.timers {
        EndKeepsUnderWay(c, s, i, q);
      }
    }
  }

  // ---- the book: every step keeps the account of each candidate ----

  lemma {:induction false} SuffixFirst(es: seq<Entry>, cs: seq<Candidate>)
    requires Suffix(es, cs)
    ensures FirstHere(es) == |es| - |cs|
  {
    var b, k := FirstHere(es), |es| - |cs|;
    assert b < |es| ==> es[b].place == Here;
    assert k < |es| ==> es[k].place == Here;
  }

  lemma RegisterSuffix(es: seq<Entry>, cs: seq<Candidate>, x: Candidate)
    requires Suffix(es, cs)
    ensures Suffix(es + [Entry(x, 0, Here)], cs + [x])
  {
  }

  lemma RemoveSuffix(es: seq<Entry>, place: Place)
    requires place != Here
    ensures Suffix(Remove(es, place), [])
  {
  }

  lemma CountAppend(ts: seq<Task>, t: Task, r: Round, i: nat)
    ensures Count(ts + [t], r, i) == Count(ts, r, i) + if Includes(t, r, i) then 1 else 0
  {
    assert (ts + [t])[..|ts|] == ts;
  }

  lemma {:induction false} CountWithout(ts: seq<Task>, k: nat, r: Round, i: nat)
    requires k < |ts|
    ensures Count(ts, r, i) == Count(ts[..k] + ts[k + 1..], r, i) + if Includes(ts[k], r, i) then 1 else 0
    decreases |ts|
  {
    var init, last := ts[..|ts| - 1], ts[|ts| - 1];
    if k == |ts| - 1 {
      assert ts[..k] + ts[k + 1..] == init;
    } else {
      CountWithout(init, k, r, i);
      assert ts[..k] + ts[k + 1..] == (init[..k] + init[k + 1..]) + [last];
      CountAppend(init[..k] + init[k + 1..], last, r, i);
    }
  }

  /** Nobody has read a candidate that has not arrived yet. */
  lemma {:induction false} CountBeyond(s: Server, ts: seq<Task>, r: Round, i: nat)
    requires i >= |Get(s.book, r)| && forall k :: 0 <= k < |ts| ==> TaskOk(s, ts[k])
    ensures Count(ts, r, i) == 0
    decreases |ts|
  {
    if ts != [] {
      assert TaskOk(s, ts[|ts| - 1]);
      CountBeyond(s, ts[..|ts| - 1], r, i);
    }
  }

  /** The arrivals of a round only grow, and stay who they are. */
  ghost predicate Extends(s: Server, t: Server, r: Round) {
    && |Get(s.book, r)| <= |Get(t.book, r)|
    && forall i :: 0 <= i < |Get(s.book, r)| ==> Get(t.book, r)[i].candidate == Get(s.book, r)[i].candidate
  }

  lemma TaskStays(s: Server, t: Server, k: Task)
    requires TaskOk(s, k) && Extends(s, t, k.round)
    ensures TaskOk(t, k)
  {
  }

  /** What one request leaves in the book of a round. */
  lemma RequestBook(s: Server, r: Round, x: Candidate, q: Round)
    requires BookOk(s)
    ensures var t := Collect(Append(s, r, x), r);
            var es := Get(s.book, q) + if q == r then [Entry(x, 0, Here)] else [];
            var cs := Get(s.candidates, q) + if q == r then [x] else [];
            && Get(t.book, q) == (if cs != [] && Old(q, r) then Remove(es, Collected) else es)
            && Get(t.candidates, q) == (if Old(q, r) then [] else cs)
            && (q in t.candidates ==> t.candidates[q] != [])
            && t.running == s.running && t.done == s.done && t.sent == s.sent
  {
    assert TableOk(s, q);
    var u := Append(s, r, x);
    var es := Get(s.book, q) + if q == r then [Entry(x, 0, Here)] else [];
    var cs := Get(s.candidates, q) + if q == r then [x] else [];
    assert Get(u.book, q) == es && Get(u.candidates, q) == cs;
    assert q in u.candidates <==> cs != [];
    assert q in u.candidates ==> q in u.book by {
      assert q != r && q in s.candidates ==> Get(s.book, q) != [];
    }
  }

  lemma RequestKeepsTable(s: Server, r: Round, x: Candidate, q: Round)
    requires BookOk(s)
    ensures TableOk(Collect(Append(s, r, x), r), q)
  {
    var es := Get(s.book, q) + if q == r then [Entry(x, 0, Here)] else [];
    var cs := Get(s.candidates, q) + if q == r then [x] else [];
    assert Suffix(es, cs) by {
      assert TableOk(s, q);
      RegisterSuffix(Get(s.book, q), Get(s.candidates, q), x);
      assert q != r ==> es == Get(s.book, q) && cs == Get(s.candidates, q);
    }
    RemoveSuffix(es, Collected);
    RequestBook(s, r, x, q);
  }

  lemma RequestExtends(s: Server, r: Round, x: Candidate, q: Round)
    requires BookOk(s)
    ensures var t, n := Collect(Append(s, r, x), r), |Get(s.book, q)|;
            && Extends(s, t, q) && |Get(t.book, q)| == n + (if q == r then 1 else 0)
            && (forall i :: 0 <= i < n ==> Get(t.book, q)[i].taken == Get(s.book, q)[i].taken)
            && (q == r ==> Get(t.book, q)[n].taken == 0)
  {
    RequestBook(s, r, x, q);
    var es := Get(s.book, q) + if q == r then [Entry(x, 0, Here)] else [];
    assert forall i :: 0 <= i < |Get(s.book, q)| ==> es[i] == Get(s.book, q)[i];
  }

  lemma RequestKeepsCount(s: Server, r: Round, x: Candidate, q: Round)
    requires BookOk(s)
    ensures Counted(Collect(Append(s, r, x), r), q)
  {
    var t, n := Collect(Append(s, r, x), r), |Get(s.book, q)|;
    assert t.running == s.running && t.done == s.done;
    RequestExtends(s, r, x, q);
    assert Counted(s, q);
    CountBeyond(s, s.running, q, n);
    CountBeyond(s, s.done, q, n);
  }

  lemma RequestKeepsBook(s: Server, r: Round, x: Candidate)
    requires BookOk(s)
    ensures BookOk(Collect(Append(s, r, x), r))
  {
    var t := Collect(Append(s, r, x), r);
    forall q: Round
      ensures TableOk(t, q) && Counted(t, q) && Extends(s, t, q)
    {
      RequestKeepsTable(s, r, x, q);
      RequestKeepsCount(s, r, x, q);
      RequestExtends(s, r, x, q);
    }
    RequestBook(s, r, x, r);
    TasksStay(s, t, s.running);
    TasksStay(s, t, s.done);
  }

  lemma TasksStay(s: Server, t: Server, ks: seq<Task>)
    requires forall i :: 0 <= i < |ks| ==> TaskOk(s, ks[i])
    requires forall q: Round :: Extends(s, t, q)
    ensures forall i :: 0 <= i < |ks| ==> TaskOk(t, ks[i])
  {
    forall i | 0 <= i < |ks|
      ensures TaskOk(t, ks[i])
    {
      TaskStays(s, t, ks[i]);
    }
  }

  lemma BeginKeepsRound(s: Server, r: Round, q: Round)
    requires BookOk(s)
    ensures var t := BeginTask(s, r); TableOk(t, q) && Counted(t, q) && Extends(s, t, q)
  {
    var t := BeginTask(s, r);
    var es := Get(s.book, q);
    var task := t.running[|s.running|];
    assert TableOk(s, q) && Counted(s, q);
    SuffixFirst(es, Get(s.candidates, q));
    if q == r {
      assert Get(t.book, q) == Read(es);
    } else {
      assert Get(t.book, q) == es;
    }
    forall i | 0 <= i < |es|
      ensures Get(t.book, q)[i].taken == Count(t.running, q, i) + Count(t.done, q, i)
    {
      CountAppend(s.running, task, q, i);
      assert Includes(task, q, i) <==> q == r && FirstHere(es) <= i;
    }
  }

  lemma BeginKeepsBook(s: Server, r: Round)
    requires BookOk(s)
    ensures BookOk(BeginTask(s, r))
  {
    var t := BeginTask(s, r);
    forall q: Round
      ensures TableOk(t, q) && Counted(t, q) && Extends(s, t, q)
    {
      BeginKeepsRound(s, r, q);
    }
    assert TableOk(s, r);
    SuffixFirst(Get(s.book, r), Get(s.candidates, r));
    assert TaskOk(s, t.running[|s.running|]);
    TasksStay(s, t, t.running);
    TasksStay(s, t, s.done);
  }

  lemma EndKeepsRound<G>(c: Curve<G>, s: Server, i: nat, q: Round)
    requires BookOk(s) && i < |s.running| && Decodable(c, s.running[i].members)
    ensures var t := EndTask(c, s, i); TableOk(t, q) && Counted(t, q) && Extends(s, t, q)
  {
    var t, r := EndTask(c, s, i), s.running[i].round;
    var es := Get(s.book, q);
    assert TableOk(s, q) && Counted(s, q);
    if q == r {
      assert Get(t.book, q) == Remove(es, Ended) && Get(t.candidates, q) == [];
    } else {
      assert Get(t.book, q) == es && Get(t.candidates, q) == Get(s.candidates, q);
    }
    forall k | 0 <= k < |es|
      ensures Get(t.book, q)[k].taken == Count(t.running, q, k) + Count(t.done, q, k)
    {
      CountWithout(s.running, i, q, k);
      CountAppend(s.done, s.running[i], q, k);
    }
  }

  lemma EndKeepsBook<G>(c: Curve<G>, s: Server, i: nat)
    requires BookOk(s) && i < |s.running| && Decodable(c, s.running[i].members)
    ensures BookOk(EndTask(c, s, i))
  {
    var t := EndTask(c, s, i);
    forall q: Round
      ensures TableOk(t, q) && Counted(t, q) && Extends(s, t, q)
    {
      EndKeepsRound(c, s, i, q);
    }
    TasksStay(s, t, t.running);
    TasksStay(s, t, t.done);
  }

  lemma SameBook(s: Server, t: Server)
    requires BookOk(s) && t.book == s.book && t.candidates == s.candidates && t.running == s.running && t.done == s.done
    ensures BookOk(t)
  {
    forall q: Round
      ensures TableOk(t, q) && Counted(t, q) && Extends(s, t, q)
    {
      assert TableOk(s, q) && Counted(s, q);
    }
    TasksStay(s, t, s.running);
    TasksStay(s, t, s.done);
  }

  // ---- runs ----

  lemma StepKeeps<G>(c: Curve<G>, s: Server, e: Event)
    requires Inv(c, s) && Enabled(c, s, e)
    ensures Inv(c, Step(c, s, e))
  {
    var t := Step(c, s, e);
    match e
    case Request(r, x) =>
      RequestStrandsNobody(s, r, x);
      RequestKeepsBook(s, r, x);
      RequestBook(s, r, x, r);
    case Fire(timer) =>
      FireStrandsNobody(s, timer);
      SameBook(s, t);
    case Begin(r) =>
      BeginStrandsNobody(s, r);
      BeginKeepsBook(s, r);
    case End(i) =>
      EndStrandsNobody(c, s, i);
      EndKeepsBook(c, s, i);
    case Leave =>
      FewerEntries(s, t);
      SameTasks(s, t);
      SameBook(s, t);
  }

  /** The state after the events, from an empty server; None if some event was not possible. */
  function Run<G>(c: Curve<G>, es: seq<Event>): Option<Server> {
    if es == [] then Some(EMPTY)
    else
      match Run(c, es[..|es| - 1])
      case None => None
      case Some(s) => if Enabled(c, s, es[|es| - 1]) then Some(Step(c, s, es[|es| - 1])) else None
  }

  /** In every state the server can reach, whatever ran between the two halves of a finalisation: every
      pending round has a timer entry that is covered or a finalisation under way; per round the table
      holds the candidates from some arrival on; every committee consists of consecutive arrivals; each
      candidate is in as many committees as have read it; and the broadcasts are the committees. */
  lemma {:induction false} ReachableOk<G>(c: Curve<G>, es: seq<Event>)
    requires Run(c, es).Some?
    ensures Inv(c, Run(c, es).value)
    decreases |es|
  {
    if es != [] {
      ReachableOk(c, es[..|es| - 1]);
      StepKeeps(c, Run(c, es[..|es| - 1]).value, es[|es| - 1]);
    }
  }

  // ---- progress ----

  /** A pending round with no finalisation under way gets one: it is queued, or the round's timer runs and
      queues it. If that then runs undisturbed it broadcasts exactly the pending candidates, in arrival order. */
  lemma PendingGetsFinalised<G>(c: Curve<G>, s: Server, r: Round)
    requires Inv(c, s) && r in s.candidates && !UnderWay(s, r) && Decodable(c, s.candidates[r])
    ensures r in s.timers
    ensures s.queued[r] == 0 ==>
              Enabled(c, s, Fire(s.timers[r])) && Step(c, s, Fire(s.timers[r])).queued[r] > 0
    ensures s.queued[r] > 0 ==>
              && Enabled(c, s, Begin(r))
              && var t := Step(c, s, Begin(r));
              && Enabled(c, t, End(|s.running|))
              && var u := Step(c, t, End(|s.running|));
              r !in u.candidates && u.sent == s.sent + [Formed(c, r, s.candidates[r])]
  {
    assert Covered(s, r);
  }

  /** The state after a request for an idle round: one candidate and a fresh timer. */
  lemma RequestStartsRound<G>(c: Curve<G>, s: Server, r: Round, x: Candidate)
    requires Inv(c, s) && r !in s.timers && r !in s.processed && !UnderWay(s, r) && r + GC_WINDOW < TWO64
    ensures var t := Step(c, s, Request(r, x));
            && t.sent == s.sent && t.running == s.running && r in t.candidates && t.candidates[r] == [x]
            && r in t.timers && t.timers[r] == s.nextTimer && s.nextTimer in t.armed && t.armed[s.nextTimer] == r
  {
    assert r !in s.candidates;
  }

  /** A round that has ended can be run again, any number of times: a new request, its timer and the
      finalisation it queues broadcast another committee for the same round number. */
  lemma RoundCanRepeat<G>(c: Curve<G>, s: Server, r: Round, x: Candidate)
    requires Inv(c, s) && r !in s.timers && r !in s.processed && !UnderWay(s, r) && r + GC_WINDOW < TWO64
    requires Decodable(c, [x])
    ensures var s1 := Step(c, s, Request(r, x));
            && Enabled(c, s1, Fire(s.nextTimer))
            && var s2 := Step(c, s1, Fire(s.nextTimer));
            && Enabled(c, s2, Begin(r))
            && var s3 := Step(c, s2, Begin(r));
            && Enabled(c, s3, End(|s.running|))
            && var s4 := Step(c, s3, End(|s.running|));
            s4.sent == s.sent + [Formed(c, r, [x])] && r !in s4.timers && r !in s4.processed
  {
    RequestStartsRound(c, s, r, x);
  }

  /** An accepted request leaves its own candidate pending exactly when the round is at least four below
      the 64-bit limit; above that the collector's sum wraps and drops the round at once. */
  lemma RequestKeepsCandidate<G>(c: Curve<G>, s: Server, r: Round, x: Candidate)
    requires Inv(c, s) && r !in s.processed
    ensures r in Step(c, s, Request(r, x)).candidates <==> r + GC_WINDOW < TWO64
  {
  }
}
