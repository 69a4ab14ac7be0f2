/** The server object of network.go and network_helper.go in the source's own form. Every method is
    proved to make the step that Committee says. */
module CommitteeServer {
  import opened Bytes
  import opened CosiGroup
  import opened CosiMask
  import opened Cosi
  import opened Cosigners
  import opened Committee

  /** The local variables of a tryFinalize that has read its candidates. */
  datatype Job = Job(round: Round, cands: seq<Candidate>)

  class MeshServer<G(!new)> {
    const curve: Curve<G>
    const hash: Hash
    var processed: set<Round>
    var timers: map<Round, nat>
    var committeeCandidates: map<Round, seq<Candidate>>
    var cosigners: Cosigners?<G>

    // the run time: running timers, finalisations ready to run and under way, and what went out
    var armed: map<nat, Round>
    var nextTimer: nat
    var queued: multiset<Round>
    var jobs: seq<Job>
    var sent: seq<Finalized>

    // the history
    ghost var running: seq<Task>
    ghost var book: map<Round, seq<Entry>>
    ghost var done: seq<Task>

    ghost predicate Valid()
      reads this
    {
      |jobs| == |running| && forall i :: 0 <= i < |jobs| ==> jobs[i] == Job(running[i].round, running[i].members)
    }

    ghost function State(): Server
      reads this
    {
      Server(processed, timers, committeeCandidates, armed, nextTimer, queued, running, book, done, sent)
    }

    constructor (curve: Curve<G>, hash: Hash)
      ensures Valid() && State() == EMPTY && this.curve == curve
    {
      this.curve, this.hash := curve, hash;
      processed, timers, committeeCandidates, cosigners := {}, map[], map[], null;
      armed, nextTimer, queued, jobs, sent := map[], 0, multiset{}, [], [];
      running, book, done := [], map[], [];
    }

    /** File the candidate and start the round's timer if it has none. */
    method FileCandidate(r: Round, x: Candidate)
      modifies this`committeeCandidates, this`book, this`timers, this`armed, this`nextTimer
      ensures State() == EnsureTimer(Register(old(State()), r, x), r)
    {
      var before := if r in committeeCandidates then committeeCandidates[r] else [];
      committeeCandidates := committeeCandidates[r := before + [x]];
      book := book[r := Get(book, r) + [Entry(x, 0, Here)]];
      if r !in timers {
        timers := timers[r := nextTimer];
        armed := armed[nextTimer := r];
        nextTimer := nextTimer + 1;
      }
    }

    method AppendCandidate(r: Round, x: Candidate) returns (ok: bool)
      modifies this`committeeCandidates, this`book, this`timers, this`armed, this`nextTimer, this`queued
      ensures ok == (r !in old(processed))
      ensures State() == if ok then Append(old(State()), r, x) else old(State())
    {
      if r in processed {
        return false;
      }
      FileCandidate(r, x);
      if |committeeCandidates[r]| >= THRESHOLD {
        armed := armed - {timers[r]};
        queued := queued + multiset{r};
      }
      return true;
    }

    method GcOldRounds(cur: Round)
      modifies this`committeeCandidates, this`book
      ensures State() == Collect(old(State()), cur)
    {
      ghost var s := State();
      var todo := committeeCandidates.Keys;
      ghost var gone: set<Round> := {};
      while todo != {}
        invariant todo <= s.candidates.Keys
        invariant gone == set r | r in s.candidates && r !in todo && Old(r, cur)
        invariant committeeCandidates == s.candidates - gone
        decreases todo
      {
        var r :| r in todo;
        todo := todo - {r};
        if Later(r) < cur {
          committeeCandidates := committeeCandidates - {r};
          gone := gone + {r};
        }
      }
      book := map r | r in s.book :: if r in gone then Remove(s.book[r], Collected) else s.book[r];
      assert gone == set r | r in s.candidates && Old(r, cur);
    }

    /** One RequestCommittee call; the result is the acknowledgement. */
    method RequestCommittee(r: Round, x: Candidate) returns (ack: bool)
      requires Valid()
      modifies this`cosigners, this`committeeCandidates, this`book, this`timers, this`armed, this`nextTimer, this`queued
      ensures Valid() && State() == Step(curve, old(State()), Request(r, x))
      ensures ack == (r !in old(processed)) && cosigners == null
    {
      cosigners := null;
      ack := AppendCandidate(r, x);
      if !ack {
        return;
      }
      GcOldRounds(r);
    }

    method TimerExpires(timer: nat)
      requires Valid() && timer in armed
      modifies this`armed, this`queued
      ensures Valid() && State() == Step(curve, old(State()), Fire(timer))
    {
      queued := queued + multiset{armed[timer]};
      armed := armed - {timer};
    }

    method StreamEnds()
      requires Valid()
      modifies this`processed
      ensures Valid() && State() == Step(curve, old(State()), Leave)
    {
      processed := {};
    }

    /** Mark the round and forget its timer. */
    method MarkRound(r: Round)
      modifies this`queued, this`processed, this`timers
      ensures queued == old(queued) - multiset{r} && processed == old(processed) + {r} && timers == old(timers) - {r}
    {
      queued := queued - multiset{r};
      processed := processed + {r};
      timers := timers - {r};
    }

    /** Read the round's candidates into the local variables of a new job. */
    method ReadCandidates(r: Round)
      requires Valid()
      modifies this`jobs, this`running, this`book
      ensures Valid() && running == old(running) + [Task(r, FirstHere(Get(old(book), r)), Get(committeeCandidates, r))]
      ensures book == old(book)[r := Read(Get(old(book), r))]
    {
      var cands := if r in committeeCandidates then committeeCandidates[r] else [];
      jobs := jobs + [Job(r, cands)];
      running := running + [Task(r, FirstHere(Get(book, r)), cands)];
      book := book[r := Read(Get(book, r))];
    }

    /** The first half of tryFinalize. */
    method BeginFinalize(r: Round)
      requires Valid() && queued[r] > 0
      modifies this`queued, this`processed, this`timers, this`jobs, this`running, this`book
      ensures Valid() && State() == Step(curve, old(State()), Begin(r))
    {
      MarkRound(r);
      ReadCandidates(r);
    }

    /** The candidates' keys, commits and ids, in arrival order. */
    method Gather(cands: seq<Candidate>) returns (keys: seq<seq<byte>>, commits: seq<seq<byte>>, ids: seq<string>)
      ensures keys == PublicKeys(cands) && commits == Commits(cands) && ids == NodeIds(cands)
    {
      keys, commits, ids := [], [], [];
      for i := 0 to |cands|
        invariant keys == PublicKeys(cands[..i]) && commits == Commits(cands[..i]) && ids == NodeIds(cands[..i])
      {
        assert cands[..i + 1][..i] == cands[..i];
        keys := keys + [cands[i].publicKey];
        commits := commits + [cands[i].commit];
        ids := ids + [cands[i].nodeId];
      }
      assert cands[..|cands|] == cands;
    }

    /** The aggregate key and commit of a full committee. */
    method Aggregate(keys: seq<seq<byte>>, commits: seq<seq<byte>>)
      returns (cos: Cosigners?<G>, aggPubKey: seq<byte>, aggCommit: Aggregated)
      requires Laws(curve)
      ensures cos == null <==> DecodeKeys(curve, ZERO32, keys).None?
      ensures cos != null ==>
                && fresh(cos) && cos.Valid() && |cos.keys| == |keys|
                && aggPubKey == curve.enc(Sum(curve, DecodeKeys(curve, ZERO32, keys).value))
                && aggCommit == CommitSum(curve, |keys|, commits)
    {
      cos := NewCosigners(curve, hash, keys, None);
      aggPubKey, aggCommit := [], Nil;
      if cos != null {
        AllEnabledSum(curve, cos.keys, []);
        EnabledSumSame(curve, cos.keys, cos.mask[..], []);
        aggPubKey := curve.enc(cos.aggr);
        aggCommit := AggregateCommit(curve, |cos.keys|, commits);
      }
    }

    /** Broadcast a committee, forget the round's candidates and unmark it. */
    method Publish(i: nat, committee: Finalized)
      requires Valid() && i < |jobs| && Decodable(curve, jobs[i].cands)
      requires committee == Formed(curve, jobs[i].round, jobs[i].cands)
      modifies this`sent, this`committeeCandidates, this`processed, this`jobs, this`running, this`book, this`done
      ensures Valid() && State() == EndTask(curve, old(State()), i)
    {
      var r := jobs[i].round;
      sent := sent + [committee];
      committeeCandidates := committeeCandidates - {r};
      processed := processed - {r};
      jobs := jobs[..i] + jobs[i + 1..];
      done := done + [running[i]];
      running := running[..i] + running[i + 1..];
      book := book[r := Remove(Get(book, r), Ended)];
    }

    /** The second half of tryFinalize. A key that does not decode leaves no cosigners and the aggregate
        key is read through a null pointer: the process dies. */
    method EndFinalize(i: nat) returns (crashed: bool)
      requires Valid() && Laws(curve) && i < |jobs|
      modifies this
      ensures crashed == !Decodable(curve, old(jobs)[i].cands)
      ensures !crashed ==> Valid() && State() == Step(curve, old(State()), End(i))
      ensures !crashed ==> cosigners != null && |cosigners.keys| == |old(jobs)[i].cands|
    {
      var job := jobs[i];
      var keys, commits, ids := Gather(job.cands);
      var cos, aggPubKey, aggCommit := Aggregate(keys, commits);
      cosigners := cos;
      if cos == null {
        return true;
      }
      Publish(i, Finalized(job.round, ids, keys, aggPubKey, aggCommit));
      return false;
    }
  }
}
