/** What becomes of requests and candidates over whole runs of Committee's server: which requests are refused,
    which candidates are lost, repeated or announced exactly once, and runs in which things go wrong. */
module CommitteeFate {
  import opened Bytes
  import opened CosiGroup
  import opened Cosi
  import opened Cosigners
  import opened Committee

  // ---- the events of one round ----

  /** What an event is to a round: a finalisation of it starts or ends, the collector drops it, a stream
      ends, or none of these. */
  datatype Mark = Starts | Stops | Drops | StreamEnds | Other

  function MarkOf(s: Server, e: Event, r: Round): Mark {
    match e
    case Begin(q) => if q == r then Starts else Other
    case End(i) => if i < |s.running| && s.running[i].round == r then Stops else Other
    case Request(q, _) => if q !in s.processed && Old(r, q) then Drops else Other
    case Leave => StreamEnds
    case Fire(_) => Other
  }

  function Marks<G>(c: Curve<G>, es: seq<Event>, r: Round): (ms: seq<Mark>)
    requires Run(c, es).Some?
    ensures |ms| == |es|
  {
    if es == [] then []
    else
      var init := es[..|es| - 1];
      Marks(c, init, r) + [MarkOf(Run(c, init).value, es[|es| - 1], r)]
  }

  // ---- which requests are refused ----

  /** A finalisation started at k, and since then none ended and no stream did. */
  ghost predicate HeldSince(ms: seq<Mark>, k: nat) {
    k < |ms| && ms[k] == Starts && forall j :: k < j < |ms| ==> ms[j] != Stops && ms[j] != StreamEnds
  }

  ghost predicate Held(ms: seq<Mark>) { exists k: nat :: HeldSince(ms, k) }

  lemma HeldAppend(ms: seq<Mark>, x: Mark)
    ensures Held(ms + [x]) <==> x == Starts || (Held(ms) && x != Stops && x != StreamEnds)
  {
    var ns := ms + [x];
    if x == Starts {
      assert HeldSince(ns, |ms|);
    } else if x != Stops && x != StreamEnds {
      assert forall k :: HeldSince(ms, k) ==> HeldSince(ns, k);
      assert forall k :: HeldSince(ns, k) ==> HeldSince(ms, k) by {
        assert forall j :: 0 <= j < |ms| ==> ns[j] == ms[j];
      }
    } else {
      assert ns[|ms|] == x;
    }
  }

  lemma ProcessedAfter<G>(c: Curve<G>, s: Server, e: Event, r: Round)
    requires Enabled(c, s, e)
    ensures r in Step(c, s, e).processed <==>
              var x := MarkOf(s, e, r);
              x == Starts || (r in s.processed && x != Stops && x != StreamEnds)
  {
  }

  lemma {:induction false} MarkedExactly<G>(c: Curve<G>, es: seq<Event>, r: Round)
    requires Run(c, es).Some?
    ensures r in Run(c, es).value.processed <==> Held(Marks(c, es, r))
    decreases |es|
  {
    if es != [] {
      var init, e := es[..|es| - 1], es[|es| - 1];
      var s := Run(c, init).value;
      MarkedExactly(c, init, r);
      ProcessedAfter(c, s, e, r);
      HeldAppend(Marks(c, init, r), MarkOf(s, e, r));
    }
  }

  /** A request is refused, leaving no trace, if and only if a finalisation of its round has begun since
      which no finalisation of the round and no stream has ended. Otherwise it is entered in the book. */
  lemma RefusedExactly<G>(c: Curve<G>, es: seq<Event>, r: Round, x: Candidate)
    requires Run(c, es).Some?
    ensures var s := Run(c, es).value;
            var t := Step(c, s, Request(r, x));
            var n := |Get(s.book, r)|;
            if exists k: nat :: HeldSince(Marks(c, es, r), k) then t == s
            else |Get(t.book, r)| == n + 1 && Get(t.book, r)[n].candidate == x && Get(t.book, r)[n].taken == 0
  {
    MarkedExactly(c, es, r);
    ReachableOk(c, es);
    RequestBook(Run(c, es).value, r, x, r);
  }

  // ---- what becomes of an accepted candidate ----

  /** What an event of its round does to an entry. */
  function Touched(x: Mark, e: Entry): Entry {
    if e.place != Here then e
    else
      match x
      case Starts => e.(taken := e.taken + 1)
      case Stops => e.(place := Ended)
      case Drops => e.(place := Collected)
      case _ => e
  }

  function TouchedBy(ms: seq<Mark>, e: Entry): Entry {
    if ms == [] then e else Touched(ms[|ms| - 1], TouchedBy(ms[..|ms| - 1], e))
  }

  lemma EntryAfterRequest(s: Server, q: Round, x: Candidate, r: Round, i: nat)
    requires BookOk(s) && i < |Get(s.book, r)|
    ensures var es := Get(Collect(Append(s, q, x), q).book, r);
            i < |es| && es[i] == Touched(if Old(r, q) then Drops else Other, Get(s.book, r)[i])
  {
    RequestBook(s, q, x, r);
    assert TableOk(s, r);
    var es := Get(s.book, r) + if q == r then [Entry(x, 0, Here)] else [];
    assert es[i] == Get(s.book, r)[i];
  }

  lemma EntryAfterTask<G>(c: Curve<G>, s: Server, e: Event, r: Round, i: nat)
    requires Enabled(c, s, e) && (e.Begin? || e.End?) && i < |Get(s.book, r)|
    ensures var es := Get(Step(c, s, e).book, r);
            i < |es| && es[i] == Touched(MarkOf(s, e, r), Get(s.book, r)[i])
  {
    var es := Get(Step(c, s, e).book, r);
    assert e.Begin? ==> es == if e.round == r then Read(Get(s.book, r)) else Get(s.book, r);
    assert e.End? ==> es == if s.running[e.task].round == r then Remove(Get(s.book, r), Ended) else Get(s.book, r);
  }

  lemma EntryAfter<G>(c: Curve<G>, s: Server, e: Event, r: Round, i: nat)
    requires Inv(c, s) && Enabled(c, s, e) && i < |Get(s.book, r)|
    ensures var es := Get(Step(c, s, e).book, r);
            i < |es| && es[i] == Touched(MarkOf(s, e, r), Get(s.book, r)[i])
  {
    if e.Begin? || e.End? {
      EntryAfterTask(c, s, e, r, i);
    } else if e.Request? && e.round !in s.processed {
      EntryAfterRequest(s, e.round, e.candidate, r, i);
    }
  }

  /** Event m of the run is an accepted request for round r. */
  predicate AcceptedAt<G>(c: Curve<G>, es: seq<Event>, m: nat, r: Round) {
    && m < |es| && es[m].Request? && es[m].round == r
    && Run(c, es[..m]).Some? && r !in Run(c, es[..m]).value.processed
  }

  /** The number, in its round, of the candidate accepted at event m. */
  function Number<G>(c: Curve<G>, es: seq<Event>, m: nat, r: Round): nat
    requires AcceptedAt(c, es, m, r)
  {
    |Get(Run(c, es[..m]).value.book, r)|
  }

  lemma ArrivalAfter<G>(c: Curve<G>, s: Server, r: Round, x: Candidate)
    requires Inv(c, s) && r !in s.processed
    ensures var es, n := Get(Step(c, s, Request(r, x)).book, r), |Get(s.book, r)|;
            n < |es| && es[n] == Touched(MarkOf(s, Request(r, x), r), Entry(x, 0, Here))
  {
    RequestBook(s, r, x, r);
  }

  /** The entry of an accepted candidate is what the events of its round since then make of it. */
  lemma {:induction false} Fate<G>(c: Curve<G>, es: seq<Event>, m: nat, r: Round)
    requires Run(c, es).Some? && AcceptedAt(c, es, m, r)
    ensures var book, n := Get(Run(c, es).value.book, r), Number(c, es, m, r);
            n < |book| && book[n] == TouchedBy(Marks(c, es, r)[m..], Entry(es[m].candidate, 0, Here))
    decreases |es|
  {
    var init, e, x := es[..|es| - 1], es[|es| - 1], Entry(es[m].candidate, 0, Here);
    var s, ms := Run(c, init).value, Marks(c, init, r);
    ReachableOk(c, init);
    var mark := MarkOf(s, e, r);
    var tail := (ms + [mark])[m..];
    if m == |es| - 1 {
      ArrivalAfter(c, s, r, e.candidate);
      assert tail == [mark];
      assert TouchedBy(tail[..0], x) == x;
    } else {
      assert init[..m] == es[..m];
      Fate(c, init, m, r);
      EntryAfter(c, s, e, r, Number(c, es, m, r));
      assert tail[..|tail| - 1] == ms[m..];
    }
  }

  predicate Touching(x: Mark) { x == Starts || x == Stops || x == Drops }

  ghost predicate FirstTouch(ms: seq<Mark>, k: nat) {
    k < |ms| && Touching(ms[k]) && forall j :: 0 <= j < k ==> !Touching(ms[j])
  }

  ghost predicate NothingTouches(ms: seq<Mark>) { forall k :: 0 <= k < |ms| ==> !Touching(ms[k]) }

  lemma {:induction false} Untouched(ms: seq<Mark>, e: Entry)
    requires NothingTouches(ms)
    ensures TouchedBy(ms, e) == e
  {
    if ms != [] {
      Untouched(ms[..|ms| - 1], e);
    }
  }

  /** What the first event that touches the round makes of an entry, as far as it is read at all. */
  ghost predicate Decided(x: Mark, e: Entry) {
    match x
    case Starts => e.taken > 0
    case Stops => e.taken == 0 && e.place == Ended
    case _ => e.taken == 0 && e.place == Collected
  }

  lemma {:induction false} FirstFixes(ms: seq<Mark>, k: nat, x: Candidate)
    requires FirstTouch(ms, k)
    ensures Decided(ms[k], TouchedBy(ms, Entry(x, 0, Here)))
    decreases |ms|
  {
    var init := ms[..|ms| - 1];
    if k == |ms| - 1 {
      Untouched(init, Entry(x, 0, Here));
    } else {
      FirstFixes(init, k, x);
    }
  }

  lemma {:induction false} FindFirst(ms: seq<Mark>) returns (k: nat)
    requires !NothingTouches(ms)
    ensures FirstTouch(ms, k)
    decreases |ms|
  {
    var n := |ms| - 1;
    if NothingTouches(ms[..n]) {
      k := n;
    } else {
      k := FindFirst(ms[..n]);
    }
  }

  lemma OneFirst(ms: seq<Mark>, k: nat, j: nat)
    requires FirstTouch(ms, k) && FirstTouch(ms, j)
    ensures k == j
  {
  }

  /** An accepted candidate is lost, removed by the end of a finalisation although none ever read it, if and
      only if that end is the first event since its acceptance that starts or ends a finalisation of its
      round or lets the collector drop it. */
  lemma LostExactly<G>(c: Curve<G>, es: seq<Event>, m: nat, r: Round)
    requires Run(c, es).Some? && AcceptedAt(c, es, m, r)
    ensures Number(c, es, m, r) < |Get(Run(c, es).value.book, r)|
    ensures var e, ms := Get(Run(c, es).value.book, r)[Number(c, es, m, r)], Marks(c, es, r)[m..];
            e.taken == 0 && e.place == Ended <==> exists k: nat :: FirstTouch(ms, k) && ms[k] == Stops
  {
    var ms := Marks(c, es, r)[m..];
    Fate(c, es, m, r);
    if NothingTouches(ms) {
      Untouched(ms, Entry(es[m].candidate, 0, Here));
    } else {
      var k := FindFirst(ms);
      FirstFixes(ms, k, es[m].candidate);
      forall j: nat | FirstTouch(ms, j)
        ensures j == k
      {
        OneFirst(ms, k, j);
      }
    }
  }

  /** The round's finalisations that start at i and j both do so before anything removes the candidate. */
  ghost predicate ReadTwice(ms: seq<Mark>, i: nat, j: nat) {
    i < j < |ms| && ms[i] == Starts && ms[j] == Starts && forall k :: 0 <= k < j ==> !Removes(ms[k])
  }

  predicate Removes(x: Mark) { x == Stops || x == Drops }

  ghost predicate NothingRemoves(ms: seq<Mark>) { forall k :: 0 <= k < |ms| ==> !Removes(ms[k]) }

  lemma {:induction false} HereExactly(ms: seq<Mark>, x: Candidate)
    ensures TouchedBy(ms, Entry(x, 0, Here)).place == Here <==> NothingRemoves(ms)
  {
    if ms != [] {
      HereExactly(ms[..|ms| - 1], x);
    }
  }

  lemma {:induction false} OnceDecides(ms: seq<Mark>, x: Candidate)
    requires NothingRemoves(ms)
    ensures TouchedBy(ms, Entry(x, 0, Here)).taken > 0 <==> exists i: nat :: i < |ms| && ms[i] == Starts
  {
    if ms != [] {
      var n := |ms| - 1;
      OnceDecides(ms[..n], x);
      HereExactly(ms[..n], x);
      assert forall i: nat :: i < n ==> ms[..n][i] == ms[i];
      assert ms[n] == Starts || ms[n] != Starts;
    }
  }

  lemma TwiceOfPrefix(ms: seq<Mark>, n: nat)
    requires |ms| == n + 1
    ensures (exists i: nat, j: nat :: ReadTwice(ms, i, j)) <==>
            || (exists i: nat, j: nat :: ReadTwice(ms[..n], i, j))
            || (ms[n] == Starts && NothingRemoves(ms[..n]) && exists i: nat :: i < n && ms[..n][i] == Starts)
  {
    var init := ms[..n];
    assert forall i: nat, j: nat :: j < n ==> (ReadTwice(init, i, j) <==> ReadTwice(ms, i, j));
    assert forall i: nat, j: nat :: ReadTwice(ms, i, j) && j >= n ==>
        j == n && ms[n] == Starts && NothingRemoves(init) && init[i] == Starts;
    if ms[n] == Starts && NothingRemoves(init) && exists i: nat :: i < n && init[i] == Starts {
      var i: nat :| i < n && init[i] == Starts;
      assert ReadTwice(ms, i, n);
    }
  }

  lemma {:induction false} TwiceDecides(ms: seq<Mark>, x: Candidate)
    ensures TouchedBy(ms, Entry(x, 0, Here)).taken >= 2 <==> exists i: nat, j: nat :: ReadTwice(ms, i, j)
  {
    if ms != [] {
      var n := |ms| - 1;
      var init := ms[..n];
      TwiceDecides(init, x);
      HereExactly(init, x);
      TwiceOfPrefix(ms, n);
      if NothingRemoves(init) {
        OnceDecides(init, x);
      }
    }
  }

  /** An accepted candidate is in two committees or more, broadcast or under way, if and only if two
      finalisations of its round have started since its acceptance before one ended or the round was dropped. */
  lemma DoubledExactly<G>(c: Curve<G>, es: seq<Event>, m: nat, r: Round)
    requires Run(c, es).Some? && AcceptedAt(c, es, m, r)
    ensures var s, n := Run(c, es).value, Number(c, es, m, r);
            Count(s.running, r, n) + Count(s.done, r, n) >= 2 <==>
            exists i: nat, j: nat :: ReadTwice(Marks(c, es, r)[m..], i, j)
  {
    var s := Run(c, es).value;
    Fate(c, es, m, r);
    TwiceDecides(Marks(c, es, r)[m..], es[m].candidate);
    ReachableOk(c, es);
    assert Counted(s, r);
  }

  // ---- which finalisations read nothing ----

  /** The last event of a run adds to the book of a round exactly if it is an accepted request for it. */
  lemma LastArrives<G>(c: Curve<G>, es: seq<Event>, r: Round)
    requires es != [] && Run(c, es).Some?
    ensures Run(c, es[..|es| - 1]).Some?
    ensures |Get(Run(c, es).value.book, r)| == |Get(Run(c, es[..|es| - 1]).value.book, r)|
                                               + if AcceptedAt(c, es, |es| - 1, r) then 1 else 0
  {
    var init := es[..|es| - 1];
    ReachableOk(c, init);
    BookGrows(c, Run(c, init).value, es[|es| - 1], r);
  }

  /** Every entry of the book was accepted at some event. */
  lemma {:induction false} EntryArrived<G>(c: Curve<G>, es: seq<Event>, r: Round, i: nat) returns (m: nat)
    requires Run(c, es).Some? && i < |Get(Run(c, es).value.book, r)|
    ensures AcceptedAt(c, es, m, r) && Number(c, es, m, r) == i
    decreases |es|
  {
    var init := es[..|es| - 1];
    LastArrives(c, es, r);
    if i < |Get(Run(c, init).value.book, r)| {
      m := EntryArrived(c, init, r, i);
      assert init[..m] == es[..m];
    } else {
      m := |es| - 1;
    }
  }

  /** Nothing is pending for a round if and only if every candidate accepted for it has since been removed by
      the end of a finalisation or by the collector. */
  lemma PendingExactly<G>(c: Curve<G>, es: seq<Event>, r: Round)
    requires Run(c, es).Some?
    ensures Get(Run(c, es).value.candidates, r) == [] <==>
            forall m: nat :: AcceptedAt(c, es, m, r) ==> !NothingRemoves(Marks(c, es, r)[m..])
  {
    var s := Run(c, es).value;
    ReachableOk(c, es);
    assert TableOk(s, r);
    var book := Get(s.book, r);
    forall m: nat | AcceptedAt(c, es, m, r)
      ensures Number(c, es, m, r) < |book|
      ensures NothingRemoves(Marks(c, es, r)[m..]) <==> book[Number(c, es, m, r)].place == Here
    {
      Fate(c, es, m, r);
      HereExactly(Marks(c, es, r)[m..], es[m].candidate);
    }
    if Get(s.candidates, r) != [] {
      var m := EntryArrived(c, es, r, |book| - 1);
      assert book[|book| - 1].place == Here;
    }
  }

  /** A finalisation that starts reads an empty committee if and only if every candidate accepted for the round
      has been removed before; if it ends undisturbed it broadcasts one without members. */
  lemma EmptyExactly<G>(c: Curve<G>, es: seq<Event>, r: Round)
    requires Run(c, es).Some? && Enabled(c, Run(c, es).value, Begin(r))
    ensures var t := Step(c, Run(c, es).value, Begin(r)).running;
            t[|t| - 1].members == [] <==>
            forall m: nat :: AcceptedAt(c, es, m, r) ==> !NothingRemoves(Marks(c, es, r)[m..])
  {
    PendingExactly(c, es, r);
  }

  // ---- when every candidate is in exactly one committee ----

  /** No stream ends during a finalisation, and no two finalisations of a round overlap. */
  ghost predicate Orderly(s: Server, e: Event) {
    (e.Leave? ==> s.running == []) && (e.Begin? ==> !UnderWay(s, e.round))
  }

  ghost predicate OrderlyRun<G>(c: Curve<G>, es: seq<Event>)
    requires Run(c, es).Some?
  {
    es != [] ==>
      && OrderlyRun(c, es[..|es| - 1])
      && Orderly(Run(c, es[..|es| - 1]).value, es[|es| - 1])
  }

  /** An entry has been read at most once, by the finalisation under way or the one that ended. */
  ghost predicate Settled(e: Entry, underWay: bool) {
    match e.place
    case Here => e.taken == if underWay then 1 else 0
    case Ended => e.taken == 1
    case Collected => e.taken <= 1
  }

  /** The marked rounds are those under way, and none is twice. */
  ghost predicate MarksOk(s: Server) {
    && (forall r :: r in s.processed <==> UnderWay(s, r))
    && (forall i, j :: 0 <= i < j < |s.running| ==> s.running[i].round != s.running[j].round)
  }

  ghost predicate EntriesSettled(s: Server, r: Round) {
    forall i :: 0 <= i < |Get(s.book, r)| ==> Settled(Get(s.book, r)[i], UnderWay(s, r))
  }

  lemma OrderlyMarks<G>(c: Curve<G>, s: Server, e: Event)
    requires MarksOk(s) && Enabled(c, s, e) && Orderly(s, e)
    ensures MarksOk(Step(c, s, e))
  {
    var t := Step(c, s, e);
    match e
    case Begin(r) =>
      forall q
        ensures q in t.processed <==> UnderWay(t, q)
      {
        BeginUnderWay(s, r, q);
      }
    case End(i) => OrderlyEnd(c, s, i);
    case Request(_, _) => SameTasks(s, t);
    case Fire(_) => SameTasks(s, t);
    case Leave =>
  }

  lemma EndDistinct(ts: seq<Task>, i: nat)
    requires i < |ts| && forall j, k :: 0 <= j < k < |ts| ==> ts[j].round != ts[k].round
    ensures var us := ts[..i] + ts[i + 1..];
            && (forall j, k :: 0 <= j < k < |us| ==> us[j].round != us[k].round)
            && (forall j :: 0 <= j < |us| ==> us[j].round != ts[i].round)
            && (forall j :: 0 <= j < |us| ==> us[j] == ts[if j < i then j else j + 1])
  {
  }

  lemma OrderlyEnd<G>(c: Curve<G>, s: Server, i: nat)
    requires MarksOk(s) && i < |s.running| && Decodable(c, s.running[i].members)
    ensures MarksOk(EndTask(c, s, i))
  {
    var t := EndTask(c, s, i);
    EndDistinct(s.running, i);
    forall q
      ensures UnderWay(t, q) <==> UnderWay(s, q) && q != s.running[i].round
    {
      if UnderWay(s, q) && q != s.running[i].round {
        EndKeepsUnderWay(c, s, i, q);
      }
    }
  }

  /** Whether a round is under way after an event, by what the event is to the round. */
  lemma UnderWayAfter<G>(c: Curve<G>, s: Server, e: Event, r: Round)
    requires MarksOk(s) && Enabled(c, s, e) && Orderly(s, e)
    ensures UnderWay(Step(c, s, e), r) <==>
              MarkOf(s, e, r) == Starts || (UnderWay(s, r) && MarkOf(s, e, r) != Stops)
  {
    OrderlyMarks(c, s, e);
    ProcessedAfter(c, s, e, r);
    assert MarkOf(s, e, r) == StreamEnds ==> !UnderWay(s, r);
  }

  /** Starting needs an idle round, and stopping one under way. */
  lemma OrderlyMark<G>(c: Curve<G>, s: Server, e: Event, r: Round)
    requires Enabled(c, s, e) && Orderly(s, e)
    ensures MarkOf(s, e, r) == Starts ==> !UnderWay(s, r)
    ensures MarkOf(s, e, r) == Stops ==> UnderWay(s, r)
  {
    if MarkOf(s, e, r) == Stops {
      assert s.running[e.task].round == r;
    }
  }

  lemma EntrySettles<G>(c: Curve<G>, s: Server, e: Event, r: Round, i: nat)
    requires Inv(c, s) && Enabled(c, s, e) && i < |Get(s.book, r)|
    requires Settled(Get(s.book, r)[i], UnderWay(s, r))
    requires MarkOf(s, e, r) == Starts ==> !UnderWay(s, r)
    requires MarkOf(s, e, r) == Stops ==> UnderWay(s, r)
    ensures var es := Get(Step(c, s, e).book, r);
            var after := MarkOf(s, e, r) == Starts || (UnderWay(s, r) && MarkOf(s, e, r) != Stops);
            i < |es| && Settled(es[i], after)
  {
    EntryAfter(c, s, e, r, i);
  }

  lemma ArrivalSettles<G>(c: Curve<G>, s: Server, r: Round, x: Candidate)
    requires Inv(c, s) && r !in s.processed && !UnderWay(s, r)
    ensures var es, n := Get(Step(c, s, Request(r, x)).book, r), |Get(s.book, r)|;
            n < |es| && Settled(es[n], false)
  {
    ArrivalAfter(c, s, r, x);
  }

  lemma BookSettles<G>(c: Curve<G>, s: Server, e: Event, r: Round, after: bool)
    requires Inv(c, s) && Enabled(c, s, e) && EntriesSettled(s, r) && (r !in s.processed ==> !UnderWay(s, r))
    requires MarkOf(s, e, r) == Starts ==> !UnderWay(s, r)
    requires MarkOf(s, e, r) == Stops ==> UnderWay(s, r)
    requires after <==> MarkOf(s, e, r) == Starts || (UnderWay(s, r) && MarkOf(s, e, r) != Stops)
    ensures var book := Get(Step(c, s, e).book, r); forall i :: 0 <= i < |book| ==> Settled(book[i], after)
  {
    var book := Get(Step(c, s, e).book, r);
    BookGrows(c, s, e, r);
    forall i | 0 <= i < |book|
      ensures Settled(book[i], after)
    {
      if i < |Get(s.book, r)| {
        EntrySettles(c, s, e, r, i);
      } else {
        ArrivalSettles(c, s, r, e.candidate);
      }
    }
  }

  lemma OrderlySettles<G>(c: Curve<G>, s: Server, e: Event, r: Round)
    requires Inv(c, s) && MarksOk(s) && Enabled(c, s, e) && Orderly(s, e) && EntriesSettled(s, r)
    ensures EntriesSettled(Step(c, s, e), r)
  {
    UnderWayAfter(c, s, e, r);
    OrderlyMark(c, s, e, r);
    BookSettles(c, s, e, r, UnderWay(Step(c, s, e), r));
  }

  /** Only an accepted request for the round adds to its book. */
  lemma BookGrows<G>(c: Curve<G>, s: Server, e: Event, r: Round)
    requires Inv(c, s) && Enabled(c, s, e)
    ensures var more := |Get(Step(c, s, e).book, r)| - |Get(s.book, r)|;
            more == if e.Request? && e.round == r && r !in s.processed then 1 else 0
  {
    if e.Request? && e.round !in s.processed {
      RequestBook(s, e.round, e.candidate, r);
    }
  }

  lemma {:induction false} OrderlyOk<G>(c: Curve<G>, es: seq<Event>)
    requires Run(c, es).Some? && OrderlyRun(c, es)
    ensures MarksOk(Run(c, es).value) && forall r :: EntriesSettled(Run(c, es).value, r)
    decreases |es|
  {
    if es != [] {
      var init, e := es[..|es| - 1], es[|es| - 1];
      var s := Run(c, init).value;
      OrderlyOk(c, init);
      ReachableOk(c, init);
      OrderlyMarks(c, s, e);
      forall r
        ensures EntriesSettled(Run(c, es).value, r)
      {
        assert EntriesSettled(s, r);
        OrderlySettles(c, s, e, r);
      }
    }
  }

  /** In an orderly run no candidate is in two committees; one that the end of a finalisation removed is in
      exactly one, broadcast or under way; one still pending in an idle round is in none; and the rounds
      that refuse requests are exactly those with a finalisation under way. */
  lemma OrderlyExactlyOnce<G>(c: Curve<G>, es: seq<Event>, r: Round, i: nat)
    requires Run(c, es).Some? && OrderlyRun(c, es) && i < |Get(Run(c, es).value.book, r)|
    ensures var s := Run(c, es).value;
            var n, e := Count(s.running, r, i) + Count(s.done, r, i), Get(s.book, r)[i];
            && n <= 1
            && (e.place == Ended ==> n == 1)
            && (e.place == Here ==> (n == 1 <==> UnderWay(s, r)))
            && (r in s.processed <==> UnderWay(s, r))
  {
    var s := Run(c, es).value;
    OrderlyOk(c, es);
    ReachableOk(c, es);
    assert EntriesSettled(s, r) && Counted(s, r);
  }

  // ---- and when not ----

  /** The candidate accepted last for a round was removed by a finalisation, and no finalisation read it. */
  ghost predicate LastLost(s: Server, r: Round, y: Candidate) {
    var es := Get(s.book, r);
    es != [] && es[|es| - 1] == Entry(y, 0, Ended)
  }

  /** A stream ends during a finalisation, a candidate arrives, the finalisation ends: the candidate has been
      accepted, is in no committee and is gone. */
  lemma LeaveLoses<G>(c: Curve<G>, s: Server, i: nat, y: Candidate)
    requires Inv(c, s) && Enabled(c, s, End(i)) && s.running[i].round + GC_WINDOW < TWO64
    ensures var r := s.running[i].round;
            var s2 := Step(c, Step(c, s, Leave), Request(r, y));
            && Enabled(c, s2, End(i))
            && var s3 := Step(c, s2, End(i));
            LastLost(s3, r, y) && r !in s3.candidates
  {
    var s1 := Step(c, s, Leave);
    StepKeeps(c, s, Leave);
    RequestBook(s1, s.running[i].round, y, s.running[i].round);
  }

  lemma RunAppend<G>(c: Curve<G>, es: seq<Event>, e: Event)
    requires Run(c, es).Some? && Enabled(c, Run(c, es).value, e)
    ensures Run(c, es + [e]) == Some(Step(c, Run(c, es).value, e))
  {
    assert (es + [e])[..|es|] == es;
  }

  function Requests(r: Round, x: Candidate, n: nat): seq<Event> {
    if n == 0 then [] else Requests(r, x, n - 1) + [Request(r, x)]
  }

  function Copies(x: Candidate, n: nat): (r: seq<Candidate>)
    ensures |r| == n
  {
    if n == 0 then [] else Copies(x, n - 1) + [x]
  }

  /** The server after n requests for a round and nothing else: from the tenth on each has queued a
      finalisation. */
  ghost predicate Piled(s: Server, r: Round, x: Candidate, n: nat) {
    && r !in s.processed && Get(s.candidates, r) == Copies(x, n) && s.running == [] && s.sent == []
    && s.queued[r] == if n < THRESHOLD then 0 else n - THRESHOLD + 1
  }

  /** What an accepted request does to the queue and the clock. */
  lemma RequestQueues(s: Server, r: Round, x: Candidate)
    ensures var t, n := Collect(Append(s, r, x), r), |Get(s.candidates, r)| + 1;
            && t.queued == (if n < THRESHOLD then s.queued else s.queued + multiset{r})
            && (n < THRESHOLD ==> t.armed == EnsureTimer(s, r).armed)
  {
  }

  /** A run goes on with a request that is accepted. */
  lemma RequestNext<G>(c: Curve<G>, es: seq<Event>, s: Server, r: Round, x: Candidate) returns (t: Server)
    requires Run(c, es) == Some(s) && r !in s.processed && r + GC_WINDOW < TWO64
    ensures Run(c, es + [Request(r, x)]) == Some(t)
    ensures t.processed == s.processed && t.running == s.running && t.sent == s.sent
    ensures Get(t.candidates, r) == Get(s.candidates, r) + [x] && Get(t.book, r) == Get(s.book, r) + [Entry(x, 0, Here)]
    ensures t.queued[r] == s.queued[r] + if |Get(s.candidates, r)| + 1 < THRESHOLD then 0 else 1
    ensures |Get(s.candidates, r)| + 1 < THRESHOLD ==> t.armed == EnsureTimer(s, r).armed
  {
    ReachableOk(c, es);
    RunAppend(c, es, Request(r, x));
    RequestBook(s, r, x, r);
    RequestQueues(s, r, x);
    t := Collect(Append(s, r, x), r);
  }

  lemma PilesNext<G>(c: Curve<G>, es: seq<Event>, s: Server, r: Round, x: Candidate, n: nat) returns (t: Server)
    requires Run(c, es) == Some(s) && Piled(s, r, x, n) && r + GC_WINDOW < TWO64
    ensures Run(c, es + [Request(r, x)]) == Some(t) && Piled(t, r, x, n + 1)
  {
    t := RequestNext(c, es, s, r, x);
  }

  lemma NothingPiled<G>(c: Curve<G>, r: Round, x: Candidate)
    ensures Run(c, []) == Some(EMPTY) && Piled(EMPTY, r, x, 0)
  {
  }

  /** Requests alone pile up finalisations, so eleven candidates leave two that may overlap. */
  lemma {:induction false} QueuedTwice<G>(c: Curve<G>, r: Round, x: Candidate, n: nat) returns (s: Server)
    requires r + GC_WINDOW < TWO64
    ensures Run(c, Requests(r, x, n)) == Some(s) && Piled(s, r, x, n)
  {
    if n == 0 {
      NothingPiled(c, r, x);
      s := EMPTY;
    } else {
      var t := QueuedTwice(c, r, x, n - 1);
      s := PilesNext(c, Requests(r, x, n - 1), t, r, x, n - 1);
    }
  }

  /** A run goes on with the first half of a finalisation. */
  lemma BeginNext<G>(c: Curve<G>, es: seq<Event>, s: Server, r: Round) returns (t: Server)
    requires Run(c, es) == Some(s) && s.queued[r] > 0
    ensures Run(c, es + [Begin(r)]) == Some(t) && t.candidates == s.candidates && t.sent == s.sent
    ensures t.queued[r] == s.queued[r] - 1 && |t.running| == |s.running| + 1 && t.running[..|s.running|] == s.running
    ensures var k := t.running[|s.running|]; k.round == r && k.members == Get(s.candidates, r)
  {
    RunAppend(c, es, Begin(r));
    t := BeginTask(s, r);
  }

  /** A run goes on with the second half of a finalisation. */
  lemma EndNext<G>(c: Curve<G>, es: seq<Event>, s: Server, i: nat) returns (t: Server)
    requires Run(c, es) == Some(s) && i < |s.running| && Decodable(c, s.running[i].members)
    ensures Run(c, es + [End(i)]) == Some(t) && t.candidates == s.candidates - {s.running[i].round}
    ensures t.sent == s.sent + [Formed(c, s.running[i].round, s.running[i].members)]
    ensures t.queued == s.queued && t.running == s.running[..i] + s.running[i + 1..]
    ensures Get(t.book, s.running[i].round) == Remove(Get(s.book, s.running[i].round), Ended)
  {
    RunAppend(c, es, End(i));
    t := EndTask(c, s, i);
  }

  lemma BeginTwice<G>(c: Curve<G>, es: seq<Event>, s: Server, r: Round) returns (t: Server)
    requires Run(c, es) == Some(s) && s.queued[r] >= 2
    ensures Run(c, es + [Begin(r)] + [Begin(r)]) == Some(t) && t.sent == s.sent && |t.running| == |s.running| + 2
    ensures var k := t.running[|s.running|]; k.round == r && k.members == Get(s.candidates, r)
    ensures var k := t.running[|s.running| + 1]; k.round == r && k.members == Get(s.candidates, r)
  {
    var u := BeginNext(c, es, s, r);
    t := BeginNext(c, es + [Begin(r)], u, r);
    assert t.running[|s.running|] == u.running[|s.running|];
  }

  /** After any run that leaves two finalisations of a round queued: if both start before either ends, both
      broadcast the same committee. */
  lemma OverlapDoubles<G>(c: Curve<G>, es: seq<Event>, s: Server, r: Round) returns (t: Server)
    requires Run(c, es) == Some(s) && s.queued[r] >= 2 && Decodable(c, Get(s.candidates, r))
    ensures var n, f := |s.running|, Formed(c, r, Get(s.candidates, r));
            Run(c, es + [Begin(r)] + [Begin(r)] + [End(n)] + [End(n)]) == Some(t) && t.sent == s.sent + [f, f]
  {
    var n, e2 := |s.running|, es + [Begin(r)] + [Begin(r)];
    var s2 := BeginTwice(c, es, s, r);
    var s3 := EndNext(c, e2, s2, n);
    assert s3.running[n] == s2.running[n + 1];
    t := EndNext(c, e2 + [End(n)], s3, n);
  }

  /** If they run one after the other, the second broadcasts a committee without members. */
  lemma SequenceEmpties<G>(c: Curve<G>, es: seq<Event>, s: Server, r: Round) returns (t: Server)
    requires Run(c, es) == Some(s) && s.queued[r] >= 2 && Decodable(c, Get(s.candidates, r))
    ensures Decodable(c, [])
    ensures var n, f := |s.running|, Formed(c, r, Get(s.candidates, r));
            && Run(c, es + [Begin(r)] + [End(n)] + [Begin(r)] + [End(n)]) == Some(t)
            && t.sent == s.sent + [f, Formed(c, r, [])]
  {
    NobodyDecodes(c);
    var n := |s.running|;
    var s1 := BeginNext(c, es, s, r);
    var s2 := EndNext(c, es + [Begin(r)], s1, n);
    var s3 := BeginNext(c, es + [Begin(r)] + [End(n)], s2, r);
    t := EndNext(c, es + [Begin(r)] + [End(n)] + [Begin(r)], s3, n);
  }

  lemma NobodyDecodes<G>(c: Curve<G>)
    ensures Decodable(c, [])
  {
  }

  /** A run from the empty server that broadcasts the same committee twice: eleven requests, and then two
      finalisations that overlap. */
  lemma DoubledReachable<G>(c: Curve<G>, r: Round, x: Candidate) returns (t: Server)
    requires r + GC_WINDOW < TWO64 && Decodable(c, Copies(x, THRESHOLD + 1))
    ensures var es := Requests(r, x, THRESHOLD + 1) + [Begin(r)] + [Begin(r)] + [End(0)] + [End(0)];
            var f := Formed(c, r, Copies(x, THRESHOLD + 1));
            Run(c, es) == Some(t) && t.sent == [f, f]
  {
    var s := QueuedTwice(c, r, x, THRESHOLD + 1);
    t := OverlapDoubles(c, Requests(r, x, THRESHOLD + 1), s, r);
  }

  /** And one that broadcasts an empty committee. */
  lemma EmptyReachable<G>(c: Curve<G>, r: Round, x: Candidate) returns (t: Server)
    requires r + GC_WINDOW < TWO64 && Decodable(c, Copies(x, THRESHOLD + 1))
    ensures Decodable(c, [])
    ensures var es := Requests(r, x, THRESHOLD + 1) + [Begin(r)] + [End(0)] + [Begin(r)] + [End(0)];
            var f := Formed(c, r, Copies(x, THRESHOLD + 1));
            Run(c, es) == Some(t) && t.sent == [f, Formed(c, r, [])]
  {
    var s := QueuedTwice(c, r, x, THRESHOLD + 1);
    t := SequenceEmpties(c, Requests(r, x, THRESHOLD + 1), s, r);
  }

  lemma FireNext<G>(c: Curve<G>, es: seq<Event>, s: Server, timer: nat) returns (t: Server)
    requires Run(c, es) == Some(s) && timer in s.armed
    ensures Run(c, es + [Fire(timer)]) == Some(t)
    ensures t == s.(armed := s.armed - {timer}, queued := s.queued + multiset{s.armed[timer]})
  {
    RunAppend(c, es, Fire(timer));
    t := s.(armed := s.armed - {timer}, queued := s.queued + multiset{s.armed[timer]});
  }

  lemma LeaveNext<G>(c: Curve<G>, es: seq<Event>, s: Server) returns (t: Server)
    requires Run(c, es) == Some(s)
    ensures Run(c, es + [Leave]) == Some(t) && t == s.(processed := {})
  {
    RunAppend(c, es, Leave);
    t := s.(processed := {});
  }

  /** One candidate, its timer, and a finalisation is under way. */
  lemma OneUnderWay<G>(c: Curve<G>, r: Round, x: Candidate) returns (t: Server)
    requires r + GC_WINDOW < TWO64
    ensures Run(c, [Request(r, x)] + [Fire(0)] + [Begin(r)]) == Some(t)
    ensures |t.running| == 1 && t.running[0].round == r && t.running[0].members == [x]
  {
    var e0: seq<Event> := [];
    var s1 := RequestNext(c, e0, EMPTY, r, x);
    assert e0 + [Request(r, x)] == [Request(r, x)];
    var s2 := FireNext(c, [Request(r, x)], s1, 0);
    t := BeginNext(c, [Request(r, x)] + [Fire(0)], s2, r);
  }

  /** A run from the empty server that loses the candidate y, whatever it holds: it arrives during a
      finalisation, after a stream has ended. */
  lemma LossReachable<G>(c: Curve<G>, r: Round, x: Candidate, y: Candidate)
    requires Decodable(c, [x]) && r + GC_WINDOW < TWO64
    ensures var es := [Request(r, x)] + [Fire(0)] + [Begin(r)] + [Leave] + [Request(r, y)] + [End(0)];
            Run(c, es).Some? && LastLost(Run(c, es).value, r, y)
  {
    var e3 := [Request(r, x)] + [Fire(0)] + [Begin(r)];
    var s3 := OneUnderWay(c, r, x);
    var s4 := LeaveNext(c, e3, s3);
    var s5 := RequestNext(c, e3 + [Leave], s4, r, y);
    var s6 := EndNext(c, e3 + [Leave] + [Request(r, y)], s5, 0);
  }
}
