/** The SMP part of a conversation object in the source's own form (golang-x-crypto/otr/smp.go): big integers
    are objects that the arithmetic overwrites, handlers keep a few of them as scratch space for every check
    and every reply, and the fields of the conversation point to such objects, some of them parsed from a
    message. Every handler is proved to do what the functions of Smp say on the numbers. */
module SmpMachine {
  import opened Bytes
  import opened ModArith
  import opened Smp

  /** A big.Int. The receiver of an operation may be one of its operands. */
  class Number {
    var v: int

    constructor (v: int)
      ensures this.v == v
    {
      this.v := v;
    }

    method SetExp(x: Number, y: Number, p: nat)
      requires x.v >= 0 && y.v >= 0 && p > 0
      modifies this
      ensures v == Exp(old(x.v), old(y.v), p)
    {
      v := Exp(x.v, y.v, p);
    }

    method SetPower(x: nat, y: Number, p: nat)
      requires y.v >= 0 && p > 0
      modifies this
      ensures v == Exp(x, old(y.v), p)
    {
      v := Exp(x, y.v, p);
    }

    method SetMul(x: Number, y: Number)
      modifies this
      ensures v == old(x.v) * old(y.v)
    {
      v := x.v * y.v;
    }

    method SetSub(x: Number, y: Number)
      modifies this
      ensures v == old(x.v) - old(y.v)
    {
      v := x.v - y.v;
    }

    method SetMod(x: Number, m: nat)
      requires m > 0
      modifies this
      ensures v == old(x.v) % m
    {
      v := x.v % m;
    }

    method SetInverse(x: Number, p: nat)
      requires x.v >= 0 && v >= 0
      modifies this
      ensures v == ModInverse(old(x.v), p, old(v))
    {
      v := ModInverse(x.v, p, v);
    }
  }

  /** The phase in which a message is in turn. */
  function Expected(k: Kind): Phase {
    match k
    case Msg2 => Expect2
    case Msg3 => Expect3
    case Msg4 => Expect4
    case _ => Expect1
  }

  /** t is s with the numbers of message 2. */
  ghost predicate SecondState(w: Group, s: Smp.State, t: Smp.State, x: nat, b2: nat, b3: nat, r4: nat) {
    var g2, g3 := E(w, s.g2a, b2), E(w, s.g3a, b3);
    t == s.(b3 := b3, g2 := g2, g3 := g3, pb := E(w, g3, r4), qb := Product(w, E(w, w.g, r4), E(w, g2, x)))
  }

  /** The parts of message 2 make up the message. */
  lemma SecondWhole(w: Group, h: Hash, s: Smp.State, t: Smp.State, x: nat, rand: Draws, first: seq<nat>, last: seq<nat>)
    requires w.q > 0 && SecondState(w, s, t, x, rand(0), rand(1), rand(4))
    requires var c2, c3 := h(3, [E(w, w.g, rand(2))]), h(4, [E(w, w.g, rand(3))]);
             first == [E(w, w.g, rand(0)), c2, Response(w, rand(2), rand(0), c2),
                       E(w, w.g, t.b3), c3, Response(w, rand(3), t.b3, c3)]
    requires var cp := h(5, [E(w, t.g3, rand(5)), Product(w, E(w, w.g, rand(5)), E(w, t.g2, rand(6)))]);
             last == [cp, Response(w, rand(5), rand(4), cp), Response(w, rand(6), x, cp)]
    ensures var m := Message(Msg2, [first[0], first[1], first[2], first[3], first[4], first[5],
                                    t.pb, t.qb, last[0], last[1], last[2]]);
            (t, m) == GenerateSMP2(w, h, s, x, rand)
  {
  }

  /** m is message 3 for the peer's qb, pa and z its blinded number and quotient, held what the scratch space keeps. */
  ghost predicate IsThird(w: Group, h: Hash, s: Smp.State, x: nat, qb: nat, rand: Draws, m: Message, pa: nat, z: nat,
                          held: nat)
    requires w.q > 0
  {
    && m == GenerateSMP3(w, h, s, x, 0, 0, qb, rand).1 && |m.mpis| == 8 && pa == m.mpis[0]
    && z == Product(w, m.mpis[1], Inverse(w, qb, x * m.mpis[2])) && held == s.a3 * m.mpis[6]
  }

  /** What the checks on message 2 find and leave: the bases are set once the first two proofs hold. */
  ghost predicate SecondChecked(w: Group, h: Hash, s: Smp.State, t: Smp.State, ns: seq<nat>, ok: bool)
    requires |ns| == 11
  {
    var logs := LogProof(w, h, 3, ns[0], ns[1], ns[2]) && LogProof(w, h, 4, ns[3], ns[4], ns[5]);
    var g2, g3 := E(w, ns[0], s.a2), E(w, ns[3], s.a3);
    && t == (if logs then s.(g2 := g2, g3 := g3) else s)
    && ok == (logs && PairProof(w, h, 5, g2, g3, ns[6], ns[7], ns[8], ns[9], ns[10]))
  }

  lemma ThirdWhole(w: Group, h: Hash, s: Smp.State, x: nat, g3b: nat, pb: nat, qb: nat, rand: Draws, m: Message,
                   pa: nat, z: nat, held: nat)
    requires w.q > 0 && IsThird(w, h, s, x, qb, rand, m, pa, z, held)
    ensures var t := s.(g3b := g3b, qaqb := z, papb := Product(w, pa, Inverse(w, pb, held)));
            (t, m) == GenerateSMP3(w, h, s, x, g3b, pb, qb, rand)
  {
  }

  lemma SecondRefused(w: Group, h: Hash, s: Smp.State, t: Smp.State, x: nat, ns: seq<nat>, rand: Draws)
    requires w.q > 0 && |ns| == 11 && SecondChecked(w, h, s, t, ns, false)
    ensures ProcessSMP2(w, h, s, x, ns, rand) == (t, None, Some(BadProof))
  {
  }

  lemma SecondAnswered(w: Group, h: Hash, s: Smp.State, t: Smp.State, x: nat, ns: seq<nat>, rand: Draws)
    requires w.q > 0 && |ns| == 11 && SecondChecked(w, h, s, t, ns, true)
    ensures var (u, m) := GenerateSMP3(w, h, t, x, ns[3], ns[6], ns[7], rand);
            ProcessSMP2(w, h, s, x, ns, rand) == (u, Some(m), None)
  {
  }

  /** What the checks on message 3 find, and the quotient they make. */
  ghost predicate ThirdChecked(w: Group, h: Hash, s: Smp.State, ns: seq<nat>, z: nat, ok: bool)
    requires |ns| == 8
  {
    && z == Product(w, ns[1], Inverse(w, s.qb, PairProduct(w, s.g2, ns[1], ns[2], ns[3], ns[4])))
    && ok == (PairProof(w, h, 6, s.g2, s.g3, ns[0], ns[1], ns[2], ns[3], ns[4])
              && SameLogProof(w, h, 7, s.g3a, z, ns[5], ns[6], ns[7]))
  }

  /** Message 4 for the quotient z, and the final comparison. */
  ghost predicate IsFourth(w: Group, h: Hash, s: Smp.State, z: nat, pa: nat, ra: nat, rand: Draws, m: Message,
                           equal: bool)
    requires w.q > 0
  {
    var cr := h(8, [E(w, w.g, rand(0)), E(w, z, rand(0))]);
    && m == Message(Msg4, [E(w, z, s.b3), cr, Response(w, rand(0), s.b3, cr)])
    && equal == (Product(w, pa, Inverse(w, s.pb, s.b3 * cr)) == E(w, ra, s.b3))
  }

  lemma ThirdReply(w: Group, h: Hash, s: Smp.State, ns: seq<nat>, rand: Draws)
    requires w.q > 0 && s.phase == Expect3 && s.secret.Some?
    ensures var (out, err) := ProcessSMP3(w, h, s, ns, rand);
            Process(w, h, s, Message(Msg3, ns), rand) == Reply(if err.None? then Reset(s) else s, out, err.None?, err)
  {
  }

  lemma ThirdRefused(w: Group, h: Hash, s: Smp.State, ns: seq<nat>, z: nat, rand: Draws)
    requires w.q > 0 && |ns| == 8 && ThirdChecked(w, h, s, ns, z, false)
    ensures ProcessSMP3(w, h, s, ns, rand) == (None, Some(BadProof))
  {
  }

  lemma ThirdAnswered(w: Group, h: Hash, s: Smp.State, ns: seq<nat>, z: nat, rand: Draws, m: Message, equal: bool)
    requires w.q > 0 && |ns| == 8 && ThirdChecked(w, h, s, ns, z, true)
    requires IsFourth(w, h, s, z, ns[0], ns[5], rand, m, equal)
    ensures ProcessSMP3(w, h, s, ns, rand) == (Some(m), if equal then None else Some(Mismatch))
  {
  }

  class Machine {
    const p: nat
    const q: nat
    const g: nat
    const h: Hash

    var phase: Phase
    var secret: Number?
    var a2: Number
    var a3: Number
    var b3: Number
    var pb: Number
    var qb: Number
    var g2a: Number
    var g3a: Number
    var g2: Number
    var g3: Number
    var g3b: Number
    var papb: Number
    var qaqb: Number

    /** An idle machine. The source leaves the numbers nil until they are first set. */
    constructor (p: nat, q: nat, g: nat, h: Hash)
      requires p > 1 && q > 0
      ensures this.p == p && this.q == q && this.g == g && this.h == h && Valid()
      ensures State() == Smp.State(Expect1, None, 0, 0, 0, 0, 0, 0, 0, 0, 0, 0, 0, 0)
    {
      var zero := new Number(0);
      this.p, this.q, this.g, this.h := p, q, g, h;
      phase, secret := Expect1, null;
      a2, a3, b3, pb, qb, g2a := zero, zero, zero, zero, zero, zero;
      g3a, g2, g3, g3b, papb, qaqb := zero, zero, zero, zero, zero, zero;
    }

    ghost predicate Params() { p > 1 && q > 0 }

    ghost function W(): Group
      requires Params()
    {
      ModGroup(p, q, g)
    }

    /** The numbers the conversation points to. */
    ghost function Objects(): set<Number?>
      reads this
    {
      {secret, a2, a3, b3, pb, qb, g2a, g3a, g2, g3, g3b, papb, qaqb}
    }

    ghost predicate Valid()
      reads this, secret, a2, a3, b3, pb, qb, g2a, g3a, g2, g3, g3b, papb, qaqb
    {
      && Params() && (secret != null ==> secret.v >= 0)
      && a2.v >= 0 && a3.v >= 0 && b3.v >= 0 && pb.v >= 0 && qb.v >= 0 && g2a.v >= 0 && g3a.v >= 0
      && g2.v >= 0 && g3.v >= 0 && g3b.v >= 0 && papb.v >= 0 && qaqb.v >= 0
    }

    /** The numbers behind the pointers. */
    ghost function State(): Smp.State
      requires Valid()
      reads this, secret, a2, a3, b3, pb, qb, g2a, g3a, g2, g3, g3b, papb, qaqb
    {
      Smp.State(phase, if secret == null then None else Some(secret.v), a2.v, a3.v, b3.v, pb.v, qb.v, g2a.v, g3a.v,
                g2.v, g3.v, g3b.v, papb.v, qaqb.v)
    }

    /** Is (c, d) a proof of knowing the logarithm of x? The source uses s or a third number for t. */
    method LogCheck(r: Number, s: Number, t: Number, m: nat, x: Number, c: Number, d: Number) returns (ok: bool)
      requires Params() && x.v >= 0 && c.v >= 0 && d.v >= 0
      requires r != s && r != t && {r, s, t} !! {x, c, d}
      modifies r, s, t
      ensures ok == LogProof(W(), h, m, x.v, c.v, d.v)
    {
      r.SetPower(g, d, p);
      s.SetExp(x, c, p);
      r.SetMul(r, s);
      r.SetMod(r, p);
      t.v := h(m, [r.v]);
      ok := c.v == t.v;
    }

    /** Is (c, d5, d6) a proof that x and u are g3^r and g^r * g2^y for known r and y? */
    method PairCheck(r: Number, s: Number, t: Number, m: nat, g2: Number, g3: Number, x: Number, u: Number,
                     c: Number, d5: Number, d6: Number) returns (ok: bool)
      requires Params() && g2.v >= 0 && g3.v >= 0 && x.v >= 0 && u.v >= 0 && c.v >= 0 && d5.v >= 0 && d6.v >= 0
      requires r != s && r != t && s != t && {r, s, t} !! {g2, g3, x, u, c, d5, d6}
      modifies r, s, t
      ensures r.v == PairProduct(W(), g2.v, u.v, c.v, d5.v, d6.v) >= 0
      ensures ok == PairProof(W(), h, m, g2.v, g3.v, x.v, u.v, c.v, d5.v, d6.v)
    {
      r.SetPower(g, d5, p);
      s.SetExp(g2, d6, p);
      r.SetMul(r, s);
      ghost var first := r.v;
      s.SetExp(u, c, p);
      r.SetMul(r, s);
      r.SetMod(r, p);
      MulMod(first, s.v, p);
      s.SetExp(g3, d5, p);
      t.SetExp(x, c, p);
      s.SetMul(s, t);
      s.SetMod(s, p);
      t.v := h(m, [s.v, r.v]);
      ok := c.v == t.v;
    }

    /** Is (c, d) a proof that x and y have the same logarithm to the bases g and u? */
    method SameLogCheck(r: Number, s: Number, t: Number, m: nat, x: Number, u: Number, y: Number, c: Number, d: Number)
      returns (ok: bool)
      requires Params() && x.v >= 0 && u.v >= 0 && y.v >= 0 && c.v >= 0 && d.v >= 0
      requires r != s && r != t && s != t && {r, s, t} !! {x, u, y, c, d}
      modifies r, s, t
      ensures ok == SameLogProof(W(), h, m, x.v, u.v, y.v, c.v, d.v)
    {
      r.SetExp(u, d, p);
      s.SetExp(y, c, p);
      r.SetMul(r, s);
      r.SetMod(r, p);
      s.SetPower(g, d, p);
      t.SetExp(x, c, p);
      s.SetMul(s, t);
      s.SetMod(s, p);
      t.v := h(m, [s.v, r.v]);
      ok := c.v == t.v;
    }

    /** Reduce a response; Mod is never negative, so the correction behind it does nothing. */
    method Reduce(d: Number)
      requires q > 0
      modifies d
      ensures d.v == old(d.v) % q
    {
      d.SetMod(d, q);
      var x := d.v;
      d.v := if x < 0 then x + q else x;
    }

    /** k - a*c mod q, in one new number. */
    method Respond(k: Number, a: Number, c: Number) returns (d: Number)
      requires Params() && k.v >= 0 && a.v >= 0 && c.v >= 0
      ensures fresh(d) && d.v == Response(W(), k.v, a.v, c.v)
    {
      d := new Number(0);
      d.SetMul(a, c);
      d.SetSub(k, d);
      Reduce(d);
    }

    /** The same, with the product left in r. */
    method RespondVia(r: Number, k: Number, a: Number, c: Number) returns (d: Number)
      requires Params() && k.v >= 0 && a.v >= 0 && c.v >= 0 && r !in {k, a, c}
      modifies r
      ensures fresh(d) && d.v == Response(W(), k.v, a.v, c.v) && r.v == a.v * c.v >= 0
    {
      r.SetMul(a, c);
      d := new Number(0);
      d.SetSub(k, r);
      Reduce(d);
    }

    /** The same, with the product left in s and the difference in r. */
    method RespondViaBoth(r: Number, s: Number, k: Number, a: Number, c: Number) returns (d: Number)
      requires Params() && k.v >= 0 && a.v >= 0 && c.v >= 0 && r != s && {r, s} !! {k, a, c}
      modifies r, s
      ensures fresh(d) && d.v == Response(W(), k.v, a.v, c.v)
    {
      s.SetMul(a, c);
      r.SetSub(k, s);
      d := new Number(0);
      d.SetMod(r, q);
      var x := d.v;
      d.v := if x < 0 then x + q else x;
    }

    /** x / y modulo p in a new number, by way of r. */
    method Divide(r: Number, x: Number, y: Number) returns (z: Number)
      requires Params() && x.v >= 0 && y.v >= 0 && r.v >= 0 && r !in {x, y}
      modifies r
      ensures fresh(z) && z.v == Product(W(), x.v, Inverse(W(), y.v, old(r.v)))
    {
      r.SetInverse(y, p);
      z := new Number(0);
      z.SetMul(x, r);
      z.SetMod(z, p);
    }

    method Power(x: Number, y: Number) returns (z: Number)
      requires Params() && x.v >= 0 && y.v >= 0
      ensures fresh(z) && z.v == E(W(), x.v, y.v)
    {
      z := new Number(0);
      z.SetExp(x, y, p);
    }

    method GPower(y: Number) returns (z: Number)
      requires Params() && y.v >= 0
      ensures fresh(z) && z.v == E(W(), g, y.v)
    {
      z := new Number(0);
      z.SetPower(g, y, p);
    }

    method Draw(rand: Draws, i: nat) returns (x: Number)
      ensures fresh(x) && x.v == rand(i)
    {
      x := new Number(rand(i));
    }

    method SetPhase(next: Phase)
      requires Valid()
      modifies this`phase
      ensures Valid() && State() == old(State()).(phase := next)
    {
      phase := next;
    }

    method ResetSMP()
      requires Valid()
      modifies this`phase, this`secret
      ensures Valid() && State() == Reset(old(State()))
    {
      phase := Expect1;
      secret := null;
    }

    /** A proof of knowing a: the challenge for the nonce k, whose power is left in r, and the response. */
    method ProveLog(r: Number, m: nat, k: Number, a: Number) returns (c: Number, d: Number)
      requires Params() && k.v >= 0 && a.v >= 0 && r !in {k, a}
      modifies r
      ensures fresh(c) && fresh(d) && c != d
      ensures c.v == h(m, [E(W(), g, k.v)]) && d.v == Response(W(), k.v, a.v, c.v)
    {
      r.SetPower(g, k, p);
      c := new Number(h(m, [r.v]));
      d := Respond(k, a, c);
    }

    /** Two such proofs, for x and y, which share r. */
    method ProveLogs(m: nat, k: Number, x: Number, l: Number, y: Number)
      returns (c2: nat, d2: nat, c3: nat, d3: nat)
      requires Params() && k.v >= 0 && x.v >= 0 && l.v >= 0 && y.v >= 0
      ensures c2 == h(m, [E(W(), g, k.v)]) && d2 == Response(W(), k.v, x.v, c2)
      ensures c3 == h(m + 1, [E(W(), g, l.v)]) && d3 == Response(W(), l.v, y.v, c3)
    {
      var r := new Number(0);
      var c, d := ProveLog(r, m, k, x);
      var c', d' := ProveLog(r, m + 1, l, y);
      c2, d2, c3, d3 := c.v, d.v, c'.v, d'.v;
    }

    method DrawFirst(rand: Draws)
      requires Valid()
      modifies this`a2, this`a3
      ensures Valid() && State() == old(State()).(a2 := rand(0), a3 := rand(1))
    {
      a2 := Draw(rand, 0);
      a3 := Draw(rand, 1);
    }

    /** generateSMP1 */
    method WriteFirst(rand: Draws) returns (m: Message)
      requires Valid()
      modifies this`a2, this`a3
      ensures Valid() && (State(), m) == GenerateSMP1(W(), h, old(State()), rand)
    {
      DrawFirst(rand);
      var x := GPower(a2);
      var y := GPower(a3);
      var r2 := Draw(rand, 2);
      var r3 := Draw(rand, 3);
      var c2, d2, c3, d3 := ProveLogs(1, r2, a2, r3, a3);
      m := Message(Msg1, [x.v, c2, d2, y.v, c3, d3]);
    }

    /** Begin an authentication, aborting one in progress. */
    method StartSMP(rand: Draws) returns (out: seq<Message>)
      requires Valid() && secret != null
      modifies this`a2, this`a3, this`phase
      ensures Valid() && (State(), out) == Start(W(), h, old(State()), rand)
    {
      var abort: seq<Message> := if phase != Expect1 then [ABORT] else [];
      var m := WriteFirst(rand);
      SetPhase(Expect2);
      out := abort + [m];
      assert [ABORT] + [m] == [ABORT, m] && [] + [m] == [m];
    }

    /** The numbers of a message. */
    ghost predicate Parsed(mpis: seq<Number>, ns: seq<nat>)
      reads mpis
    {
      |mpis| == |ns| && forall i :: 0 <= i < |mpis| ==> mpis[i].v == ns[i]
    }

    /** The two proofs at the head of messages 1 and 2. */
    method TwoLogs(r: Number, s: Number, t: Number, m: nat, mpis: seq<Number>, ghost ns: seq<nat>) returns (ok: bool)
      requires Params() && Parsed(mpis, ns) && |mpis| >= 6 && r != s && r != t
      requires r !in mpis && s !in mpis && t !in mpis
      modifies r, s, t
      ensures ok == (LogProof(W(), h, m, ns[0], ns[1], ns[2]) && LogProof(W(), h, m + 1, ns[3], ns[4], ns[5]))
    {
      ok := LogCheck(r, s, t, m, mpis[0], mpis[1], mpis[2]);
      if ok {
        ok := LogCheck(r, s, t, m + 1, mpis[3], mpis[4], mpis[5]);
      }
    }

    /** processSMP1 */
    method ReadFirst(mpis: seq<Number>, ghost ns: seq<nat>) returns (err: Option<Error>)
      requires Valid() && Parsed(mpis, ns)
      modifies this`g2a, this`g3a
      ensures Valid() && (State(), err) == ProcessSMP1(W(), h, old(State()), ns)
    {
      if |mpis| != 6 {
        return Some(BadArguments);
      }
      var r, s, t := Fresh3();
      var ok := TwoLogs(r, s, t, 1, mpis, ns);
      if !ok {
        return Some(BadProof);
      }
      SetPeer(mpis[0], mpis[3]);
      return None;
    }

    method SetPeer(x: Number, y: Number)
      requires Valid() && x.v >= 0 && y.v >= 0
      modifies this`g2a, this`g3a
      ensures Valid() && State() == old(State()).(g2a := x.v, g3a := y.v)
    {
      g2a := x;
      g3a := y;
    }

    method Fresh3() returns (r: Number, s: Number, t: Number)
      ensures fresh(r) && fresh(s) && fresh(t) && r != s && s != t && r != t
    {
      r := new Number(0);
      s := new Number(0);
      t := new Number(0);
    }

    // ---- message 2 ----

    /** The first half of message 2: the bases' other halves and the proofs of their logarithms. */
    method OpenSecond(rand: Draws, b2: Number) returns (out: seq<nat>)
      requires Valid() && b2.v >= 0
      ensures var c2, c3 := h(3, [E(W(), g, rand(2))]), h(4, [E(W(), g, rand(3))]);
              out == [E(W(), g, b2.v), c2, Response(W(), rand(2), b2.v, c2),
                      E(W(), g, b3.v), c3, Response(W(), rand(3), b3.v, c3)]
    {
      var r2 := Draw(rand, 2);
      var r3 := Draw(rand, 3);
      var x := GPower(b2);
      var y := GPower(b3);
      var c2, d2, c3, d3 := ProveLogs(3, r2, b2, r3, b3);
      out := [x.v, c2, d2, y.v, c3, d3];
    }

    /** The shared bases, from the peer's halves. */
    method SetBases(x: Number, e: Number, y: Number, f: Number)
      requires Valid() && x.v >= 0 && e.v >= 0 && y.v >= 0 && f.v >= 0
      modifies this`g2, this`g3
      ensures Valid() && fresh(g2) && fresh(g3)
      ensures State() == old(State()).(g2 := E(W(), x.v, e.v), g3 := E(W(), y.v, f.v))
    {
      g2 := Power(x, e);
      g3 := Power(y, f);
    }

    /** g3^k and g^k * g2^secret; the second is multiplied in place. */
    method Blinded(r: Number, k: Number) returns (x: Number, y: Number)
      requires Valid() && k.v >= 0 && secret != null && r !in {k, g2, g3, secret}
      modifies r
      ensures fresh(x) && fresh(y) && x != y && x.v == E(W(), g3.v, k.v)
      ensures y.v == Product(W(), E(W(), g, k.v), E(W(), g2.v, secret.v))
    {
      x := Power(g3, k);
      y := GPower(k);
      r.SetExp(g2, secret, p);
      y.SetMul(y, r);
      y.SetMod(y, p);
    }

    /** The challenge of message 2, with r and s as scratch space. */
    method SecondChallenge(r: Number, s: Number, k5: Number, k6: Number) returns (cp: Number)
      requires Valid() && k5.v >= 0 && k6.v >= 0 && r != s && {r, s} !! {k5, k6, g2, g3}
      modifies r, s
      ensures fresh(cp)
      ensures cp.v == h(5, [E(W(), g3.v, k5.v), Product(W(), E(W(), g, k5.v), E(W(), g2.v, k6.v))])
    {
      s.SetExp(g2, k6, p);
      r.SetPower(g, k5, p);
      s.SetMul(r, s);
      s.SetMod(s, p);
      r.SetExp(g3, k5, p);
      cp := new Number(h(5, [r.v, s.v]));
    }

    /** The proof of message 2: the challenge and its two responses. */
    method SecondProof(r: Number, s: Number, rand: Draws, r4: Number) returns (out: seq<nat>)
      requires Valid() && r4.v >= 0 && secret != null && r != s && {r, s} !! {r4, g2, g3, secret}
      modifies r, s
      ensures var cp := h(5, [E(W(), g3.v, rand(5)), Product(W(), E(W(), g, rand(5)), E(W(), g2.v, rand(6)))]);
              out == [cp, Response(W(), rand(5), r4.v, cp), Response(W(), rand(6), secret.v, cp)]
    {
      var r5 := Draw(rand, 5);
      var r6 := Draw(rand, 6);
      var cp := SecondChallenge(r, s, r5, r6);
      var d5 := RespondViaBoth(r, s, r5, r4, cp);
      var d6 := RespondViaBoth(r, s, r6, secret, cp);
      out := [cp.v, d5.v, d6.v];
    }

    method SetB3(rand: Draws)
      requires Valid()
      modifies this`b3
      ensures Valid() && fresh(b3) && State() == old(State()).(b3 := rand(1))
    {
      b3 := Draw(rand, 1);
    }

    method SetBlinded(r: Number, r4: Number)
      requires Valid() && r4.v >= 0 && secret != null && r != r4 && r !in Objects()
      modifies this`pb, this`qb, r
      ensures Valid() && fresh(pb) && fresh(qb)
      ensures State() == old(State()).(pb := E(W(), g3.v, r4.v),
                                       qb := Product(W(), E(W(), g, r4.v), E(W(), g2.v, secret.v)))
    {
      pb, qb := Blinded(r, r4);
    }

    /** What message 2 leaves in the conversation. */
    method SetSecond(rand: Draws, b2: Number, r: Number, r4: Number)
      requires Valid() && b2.v >= 0 && r4.v >= 0 && secret != null && r !in {b2, r4} && r !in Objects()
      modifies this`b3, this`g2, this`g3, this`pb, this`qb, r
      ensures Valid() && r !in Objects()
      ensures SecondState(W(), old(State()), State(), old(secret.v), b2.v, rand(1), r4.v)
    {
      SetHalves(rand, b2);
      SetBlinded(r, r4);
    }

    /** b3 and the shared bases, all new numbers. */
    method SetHalves(rand: Draws, b2: Number)
      requires Valid() && b2.v >= 0
      modifies this`b3, this`g2, this`g3
      ensures Valid() && fresh(b3) && fresh(g2) && fresh(g3)
      ensures State() == old(State()).(b3 := rand(1), g2 := E(W(), g2a.v, b2.v), g3 := E(W(), g3a.v, rand(1)))
    {
      SetB3(rand);
      SetBases(g2a, b2, g3a, b3);
    }

    /** Message 2, from the numbers it left in the conversation. */
    method SecondMessage(rand: Draws, b2: Number, r: Number, r4: Number, ghost s0: Smp.State) returns (m: Message)
      requires Valid() && secret != null && b2.v == rand(0) && r4.v == rand(4) && r !in {b2, r4} && r !in Objects()
      requires SecondState(W(), s0, State(), secret.v, rand(0), rand(1), rand(4))
      modifies r
      ensures Valid() && State() == old(State())
      ensures (State(), m) == GenerateSMP2(W(), h, s0, secret.v, rand)
    {
      var first := OpenSecond(rand, b2);
      var s := new Number(0);
      var last := SecondProof(r, s, rand, r4);
      m := Message(Msg2, [first[0], first[1], first[2], first[3], first[4], first[5],
                          pb.v, qb.v, last[0], last[1], last[2]]);
      SecondWhole(W(), h, s0, State(), secret.v, rand, first, last);
    }

    /** generateSMP2 */
    method WriteSecond(rand: Draws) returns (m: Message)
      requires Valid() && secret != null
      modifies this`b3, this`g2, this`g3, this`pb, this`qb
      ensures Valid() && (State(), m) == GenerateSMP2(W(), h, old(State()), old(secret.v), rand)
    {
      var b2 := Draw(rand, 0);
      var r4 := Draw(rand, 4);
      var r := new Number(0);
      SetSecond(rand, b2, r, r4);
      m := SecondMessage(rand, b2, r, r4, old(State()));
    }

    // ---- message 3 ----

    /** The challenge of message 3, written over the challenge that was received. */
    method ThirdChallenge(r: Number, s: Number, cp: Number, k5: Number, k6: Number)
      requires Valid() && k5.v >= 0 && k6.v >= 0 && r != s && {r, s} !! {k5, k6, g2, g3}
      modifies r, s, cp
      ensures cp.v == h(6, [E(W(), old(g3.v), old(k5.v)),
                            Product(W(), E(W(), g, old(k5.v)), E(W(), old(g2.v), old(k6.v)))])
    {
      r.SetPower(g, k5, p);
      s.SetExp(g2, k6, p);
      r.SetMul(r, s);
      r.SetMod(r, p);
      s.SetExp(g3, k5, p);
      cp.v := h(6, [s.v, r.v]);
    }

    /** A proof that a is the logarithm of two numbers to the bases g and u; r keeps the last product. */
    method ProveSameLog(r: Number, s: Number, m: nat, u: Number, a: Number, k: Number) returns (c: Number, d: Number)
      requires Params() && u.v >= 0 && a.v >= 0 && k.v >= 0 && r != s && {r, s} !! {u, a, k}
      modifies r, s
      ensures fresh(c) && fresh(d) && c.v == h(m, [E(W(), g, k.v), E(W(), u.v, k.v)])
      ensures d.v == Response(W(), k.v, a.v, c.v) && r.v == a.v * c.v >= 0
    {
      r.SetExp(u, k, p);
      s.SetPower(g, k, p);
      c := new Number(h(m, [s.v, r.v]));
      d := RespondVia(r, k, a, c);
    }

    /** The proof of the blinded secret in message 3. */
    method ThirdProof(r: Number, s: Number, cp: Number, rand: Draws, r4: Number) returns (d5: nat, d6: nat)
      requires Valid() && secret != null && r4.v >= 0 && r != s && cp !in {r, s, r4}
      requires {r, s} !! {r4} && r !in Objects() && s !in Objects() && cp !in Objects()
      modifies r, s, cp
      ensures Valid() && State() == old(State())
      ensures cp.v == h(6, [E(W(), g3.v, rand(1)), Product(W(), E(W(), g, rand(1)), E(W(), g2.v, rand(2)))])
      ensures d5 == Response(W(), rand(1), r4.v, cp.v) && d6 == Response(W(), rand(2), secret.v, cp.v)
      ensures r.v == secret.v * cp.v >= 0
    {
      var r5 := Draw(rand, 1);
      var r6 := Draw(rand, 2);
      ThirdChallenge(r, s, cp, r5, r6);
      d5, d6 := Respond2(r, r5, r4, r6, secret, cp);
    }

    /** Two responses in turn by way of r, which keeps the second product. */
    method Respond2(r: Number, k: Number, a: Number, l: Number, b: Number, c: Number) returns (d: nat, e: nat)
      requires Params() && k.v >= 0 && a.v >= 0 && l.v >= 0 && b.v >= 0 && c.v >= 0 && r !in {k, a, l, b, c}
      modifies r
      ensures d == Response(W(), k.v, a.v, c.v) && e == Response(W(), l.v, b.v, c.v) && r.v == b.v * c.v >= 0
    {
      var x := RespondVia(r, k, a, c);
      var y := RespondVia(r, l, b, c);
      d, e := x.v, y.v;
    }

    /** The blinded secret of message 3 and its proof. */
    method ThirdPair(r: Number, s: Number, cp: Number, rand: Draws)
      returns (pa: Number, qa: Number, d5: nat, d6: nat)
      requires Valid() && secret != null && r != s && cp !in {r, s}
      requires r !in Objects() && s !in Objects() && cp !in Objects()
      modifies r, s, cp
      ensures fresh(pa) && fresh(qa) && Valid() && State() == old(State())
      ensures pa.v == E(W(), g3.v, rand(0)) && qa.v == Product(W(), E(W(), g, rand(0)), E(W(), g2.v, secret.v))
      ensures cp.v == h(6, [E(W(), g3.v, rand(1)), Product(W(), E(W(), g, rand(1)), E(W(), g2.v, rand(2)))])
      ensures d5 == Response(W(), rand(1), rand(0), cp.v) && d6 == Response(W(), rand(2), secret.v, cp.v)
      ensures r.v == secret.v * cp.v >= 0
    {
      var r4 := Draw(rand, 0);
      pa, qa := Blinded(r, r4);
      d5, d6 := ThirdProof(r, s, cp, rand, r4);
    }

    /** The quotient of the blinded secrets, its power and the proof of that. */
    method ThirdQuotient(r: Number, s: Number, qa: Number, qb': Number, rand: Draws)
      returns (z: Number, ra: nat, cr: nat, d7: nat)
      requires Valid() && qa.v >= 0 && qb'.v >= 0 && r.v >= 0 && r != s && {r, s} !! {qa, qb'}
      requires r !in Objects() && s !in Objects()
      modifies r, s
      ensures fresh(z) && Valid() && State() == old(State())
      ensures z.v == Product(W(), qa.v, Inverse(W(), qb'.v, old(r.v))) && ra == E(W(), z.v, a3.v)
      ensures cr == h(7, [E(W(), g, rand(3)), E(W(), z.v, rand(3))]) && d7 == Response(W(), rand(3), a3.v, cr)
      ensures r.v == a3.v * cr >= 0
    {
      z := Divide(r, qa, qb');
      var x := Power(z, a3);
      var r7 := Draw(rand, 3);
      var c, d := ProveSameLog(r, s, 7, z, a3, r7);
      ra, cr, d7 := x.v, c.v, d.v;
    }

    /** What message 3 leaves in the conversation. */
    method SetThird(r: Number, x: Number, z: Number, pa: Number, pb': Number)
      requires Valid() && x.v >= 0 && z.v >= 0 && pa.v >= 0 && pb'.v >= 0 && r.v >= 0
      requires r !in {x, z, pa, pb'} && r !in Objects()
      modifies this`g3b, this`qaqb, this`papb, r
      ensures Valid()
      ensures State() == old(State()).(g3b := x.v, qaqb := z.v,
                                       papb := Product(W(), pa.v, Inverse(W(), pb'.v, old(r.v))))
    {
      g3b := x;
      qaqb := z;
      papb := Divide(r, pa, pb');
    }

    /** Message 3. The received challenge cp is overwritten by the one that is sent. */
    method ThirdMessage(r: Number, s: Number, qb': Number, cp: Number, rand: Draws)
      returns (m: Message, pa: Number, z: Number)
      requires Valid() && secret != null && qb'.v >= 0 && r != s && cp !in {r, s} && {r, s, cp} !! {qb'}
      requires r !in Objects() && s !in Objects() && cp !in Objects()
      modifies r, s, cp
      ensures fresh(pa) && fresh(z) && Valid() && State() == old(State()) && pa.v >= 0 && z.v >= 0 && r.v >= 0
      ensures IsThird(W(), h, State(), secret.v, qb'.v, rand, m, pa.v, z.v, r.v)
    {
      var qa, d5, d6;
      pa, qa, d5, d6 := ThirdPair(r, s, cp, rand);
      var ra, cr, d7;
      z, ra, cr, d7 := ThirdQuotient(r, s, qa, qb', rand);
      m := Message(Msg3, [pa.v, qa.v, cp.v, d5, d6, ra, cr, d7]);
    }

    /** The second half of processSMP2. */
    method WriteThird(r: Number, s: Number, x: Number, pb': Number, qb': Number, cp: Number, rand: Draws)
      returns (m: Message)
      requires Valid() && secret != null && x.v >= 0 && pb'.v >= 0 && qb'.v >= 0
      requires r != s && cp !in {r, s} && {r, s, cp} !! {x, pb', qb'}
      requires r !in Objects() && s !in Objects() && cp !in Objects()
      modifies this`g3b, this`qaqb, this`papb, r, s, cp
      ensures Valid()
      ensures (State(), m) == GenerateSMP3(W(), h, old(State()), old(secret.v), x.v, pb'.v, qb'.v, rand)
    {
      var pa, z;
      m, pa, z := ThirdMessage(r, s, qb', cp, rand);
      ThirdWhole(W(), h, State(), secret.v, x.v, pb'.v, qb'.v, rand, m, pa.v, z.v, r.v);
      SetThird(r, x, z, pa, pb');
    }

    /** The third check of processSMP2, for which the shared bases are set. */
    method CheckBases(r: Number, s: Number, t: Number, mpis: seq<Number>, ghost ns: seq<nat>) returns (ok: bool)
      requires Valid() && Parsed(mpis, ns) && |mpis| == 11 && r != s && r != t && s != t
      requires r !in mpis && s !in mpis && t !in mpis && r !in Objects() && s !in Objects() && t !in Objects()
      modifies this`g2, this`g3, r, s, t
      ensures Valid() && fresh(g2) && fresh(g3)
      ensures State() == old(State()).(g2 := E(W(), ns[0], old(a2.v)), g3 := E(W(), ns[3], old(a3.v)))
      ensures ok == PairProof(W(), h, 5, g2.v, g3.v, ns[6], ns[7], ns[8], ns[9], ns[10])
    {
      SetBases(mpis[0], a2, mpis[3], a3);
      ok := CheckPair(r, s, t, mpis, ns);
    }

    /** The first two checks use s for what the third does with t. */
    method CheckLogs(r: Number, s: Number, mpis: seq<Number>, ghost ns: seq<nat>) returns (ok: bool)
      requires Valid() && Parsed(mpis, ns) && |mpis| == 11 && r != s
      requires r !in mpis && s !in mpis && r !in Objects() && s !in Objects()
      modifies r, s
      ensures Valid() && State() == old(State())
      ensures ok == (LogProof(W(), h, 3, ns[0], ns[1], ns[2]) && LogProof(W(), h, 4, ns[3], ns[4], ns[5]))
    {
      ok := TwoLogs(r, s, s, 3, mpis, ns);
    }

    method CheckPair(r: Number, s: Number, t: Number, mpis: seq<Number>, ghost ns: seq<nat>) returns (ok: bool)
      requires Valid() && Parsed(mpis, ns) && |mpis| == 11 && r != s && r != t && s != t
      requires r !in mpis && s !in mpis && t !in mpis && r !in Objects() && s !in Objects() && t !in Objects()
      modifies r, s, t
      ensures Valid() && State() == old(State())
      ensures ok == PairProof(W(), h, 5, g2.v, g3.v, ns[6], ns[7], ns[8], ns[9], ns[10])
    {
      ok := PairCheck(r, s, t, 5, g2, g3, mpis[6], mpis[7], mpis[8], mpis[9], mpis[10]);
    }

    /** The rest of processSMP2 once the first two proofs hold. */
    method AnswerSecond(r: Number, s: Number, t: Number, mpis: seq<Number>, ghost ns: seq<nat>, rand: Draws)
      returns (out: Option<Message>, err: Option<Error>)
      requires Valid() && secret != null && Parsed(mpis, ns) && |mpis| == 11 && r != s && r != t && s != t
      requires mpis[8] !in Objects() && forall i :: 0 <= i < 8 ==> mpis[i] != mpis[8]
      requires r !in mpis && s !in mpis && t !in mpis && r !in Objects() && s !in Objects() && t !in Objects()
      requires LogProof(W(), h, 3, ns[0], ns[1], ns[2]) && LogProof(W(), h, 4, ns[3], ns[4], ns[5])
      modifies this`g2, this`g3, this`g3b, this`qaqb, this`papb, mpis[8], r, s, t
      ensures Valid() && (State(), out, err) == ProcessSMP2(W(), h, old(State()), old(secret.v), ns, rand)
    {
      var ok := CheckBases(r, s, t, mpis, ns);
      ghost var checked := State();
      if !ok {
        SecondRefused(W(), h, old(State()), checked, secret.v, ns, rand);
        return None, Some(BadProof);
      }
      SecondAnswered(W(), h, old(State()), checked, secret.v, ns, rand);
      var m := WriteThird(r, s, mpis[3], mpis[6], mpis[7], mpis[8], rand);
      return Some(m), None;
    }

    /** processSMP2 */
    method ReadSecond(mpis: seq<Number>, ghost ns: seq<nat>, rand: Draws)
      returns (out: Option<Message>, err: Option<Error>)
      requires Valid() && secret != null && Parsed(mpis, ns)
      requires |mpis| == 11 ==> mpis[8] !in Objects() && forall i :: 0 <= i < 8 ==> mpis[i] != mpis[8]
      modifies this`g2, this`g3, this`g3b, this`qaqb, this`papb, if |mpis| == 11 then {mpis[8]} else {}
      ensures Valid() && (State(), out, err) == ProcessSMP2(W(), h, old(State()), old(secret.v), ns, rand)
    {
      if |mpis| != 11 {
        return None, Some(BadArguments);
      }
      var r, s, t := Fresh3();
      var ok := CheckLogs(r, s, mpis, ns);
      if !ok {
        SecondRefused(W(), h, old(State()), State(), secret.v, ns, rand);
        return None, Some(BadProof);
      }
      out, err := AnswerSecond(r, s, t, mpis, ns, rand);
    }

    // ---- message 4 ----

    /** The checks of processSMP3 and the quotient made between them. */
    method CheckThird(r: Number, s: Number, t: Number, mpis: seq<Number>, ghost ns: seq<nat>)
      returns (ok: bool, z: Number)
      requires Valid() && Parsed(mpis, ns) && |mpis| == 8 && r != s && r != t && s != t
      requires r !in mpis && s !in mpis && t !in mpis && r !in Objects() && s !in Objects() && t !in Objects()
      modifies r, s, t
      ensures fresh(z) && z.v >= 0 && Valid() && State() == old(State()) && ThirdChecked(W(), h, State(), ns, z.v, ok)
    {
      ok := PairCheck(r, s, t, 6, g2, g3, mpis[0], mpis[1], mpis[2], mpis[3], mpis[4]);
      z := Divide(r, mpis[1], qb);
      if ok {
        ok := SameLogCheck(r, s, t, 7, g3a, z, mpis[5], mpis[6], mpis[7]);
      }
    }

    /** processSMP3 on a message of the right length. */
    method AnswerThird(mpis: seq<Number>, ghost ns: seq<nat>, rand: Draws)
      returns (out: Option<Message>, err: Option<Error>)
      requires Valid() && Parsed(mpis, ns) && |mpis| == 8
      ensures Valid() && State() == old(State()) && (out, err) == ProcessSMP3(W(), h, State(), ns, rand)
    {
      var r, s, t := Fresh3();
      var ok, z := CheckThird(r, s, t, mpis, ns);
      if !ok {
        ThirdRefused(W(), h, State(), ns, z.v, rand);
        return None, Some(BadProof);
      }
      var m, equal := WriteFourth(r, s, z, mpis[0], mpis[5], rand);
      ThirdAnswered(W(), h, State(), ns, z.v, rand, m, equal);
      return Some(m), if equal then None else Some(Mismatch);
    }

    /** processSMP3 */
    method ReadThird(mpis: seq<Number>, ghost ns: seq<nat>, rand: Draws)
      returns (out: Option<Message>, err: Option<Error>)
      requires Valid() && Parsed(mpis, ns)
      ensures Valid() && State() == old(State()) && (out, err) == ProcessSMP3(W(), h, State(), ns, rand)
    {
      if |mpis| != 8 {
        return None, Some(BadArguments);
      }
      out, err := AnswerThird(mpis, ns, rand);
    }

    /** The final comparison, in the scratch space: is pa / pb the power b3 of ra? */
    method Compare(r: Number, s: Number, pa: Number, ra: Number) returns (equal: bool)
      requires Params() && pa.v >= 0 && ra.v >= 0 && pb.v >= 0 && b3.v >= 0 && r.v >= 0
      requires r != s && {r, s} !! {pa, ra, pb, b3}
      modifies r, s
      ensures equal == (Product(W(), pa.v, Inverse(W(), pb.v, old(r.v))) == E(W(), ra.v, b3.v))
    {
      r.SetInverse(pb, p);
      r.SetMul(pa, r);
      r.SetMod(r, p);
      s.SetExp(ra, b3, p);
      equal := r.v == s.v;
    }

    /** Message 4, and whether the blinded secrets agree. */
    method WriteFourth(r: Number, s: Number, z: Number, pa: Number, ra: Number, rand: Draws)
      returns (m: Message, equal: bool)
      requires Valid() && z.v >= 0 && pa.v >= 0 && ra.v >= 0 && r != s && {r, s} !! {z, pa, ra}
      requires r !in Objects() && s !in Objects()
      modifies r, s
      ensures Valid() && State() == old(State())
      ensures IsFourth(W(), h, State(), z.v, pa.v, ra.v, rand, m, equal)
    {
      var r7 := Draw(rand, 0);
      var rb := Power(z, b3);
      var cr, d7 := ProveSameLog(r, s, 8, z, b3, r7);
      m := Message(Msg4, [rb.v, cr.v, d7.v]);
      equal := Compare(r, s, pa, ra);
    }

    /** processSMP4 */
    method ReadFourth(mpis: seq<Number>, ghost ns: seq<nat>) returns (err: Option<Error>)
      requires Valid() && Parsed(mpis, ns)
      ensures err == ProcessSMP4(W(), h, State(), ns)
    {
      if |mpis| != 3 {
        return Some(BadArguments);
      }
      var r, s, t := Fresh3();
      var ok := SameLogCheck(r, s, t, 8, g3b, qaqb, mpis[0], mpis[1], mpis[2]);
      if !ok {
        return Some(BadProof);
      }
      r.SetExp(mpis[0], a3, p);
      if r.v != papb.v {
        return Some(Mismatch);
      }
      return None;
    }

    /** The numbers of a message, each in an object of its own. */
    method Parse(ns: seq<nat>) returns (mpis: seq<Number>)
      ensures Parsed(mpis, ns) && (forall i :: 0 <= i < |mpis| ==> fresh(mpis[i]))
      ensures forall i, j :: 0 <= i < j < |mpis| ==> mpis[i] != mpis[j]
    {
      mpis := [];
      for k := 0 to |ns|
        invariant |mpis| == k
        invariant forall i :: 0 <= i < k ==> fresh(mpis[i]) && mpis[i].v == ns[i]
        invariant forall i, j :: 0 <= i < j < k ==> mpis[i] != mpis[j]
      {
        var x := new Number(ns[k]);
        mpis := mpis + [x];
      }
    }

    // ---- the state machine ----

    method ReadMsg1(ns: seq<nat>, rand: Draws) returns (out: Option<Message>, err: Option<Error>)
      requires Valid() && phase == Expect1
      modifies this
      ensures Valid() && Reply(State(), out, false, err) == Process(W(), h, old(State()), Message(Msg1, ns), rand)
    {
      if secret == null {
        return None, Some(SecretMissing);
      }
      var mpis := Parse(ns);
      err := ReadFirst(mpis, ns);
      if err.Some? {
        return None, err;
      }
      SetPhase(Expect3);
      var m := WriteSecond(rand);
      return Some(m), None;
    }

    method ReadMsg2(ns: seq<nat>, rand: Draws) returns (out: Option<Message>, err: Option<Error>)
      requires Valid() && phase == Expect2 && secret != null
      modifies this
      ensures Valid() && Reply(State(), out, false, err) == Process(W(), h, old(State()), Message(Msg2, ns), rand)
    {
      var mpis := Parse(ns);
      out, err := ReadSecond(mpis, ns, rand);
      if err.Some? {
        return Some(ABORT), err;
      }
      SetPhase(Expect4);
    }

    method ReadMsg3(ns: seq<nat>, rand: Draws) returns (out: Option<Message>, complete: bool, err: Option<Error>)
      requires Valid() && phase == Expect3 && secret != null
      modifies this
      ensures Valid() && Reply(State(), out, complete, err) == Process(W(), h, old(State()), Message(Msg3, ns), rand)
    {
      var mpis := Parse(ns);
      out, err := ReadThird(mpis, ns, rand);
      ThirdReply(W(), h, State(), ns, rand);
      complete := err.None?;
      if complete {
        ResetSMP();
      }
    }

    method ReadMsg4(ns: seq<nat>, rand: Draws) returns (out: Option<Message>, complete: bool, err: Option<Error>)
      requires Valid() && phase == Expect4 && secret != null
      modifies this
      ensures Valid() && Reply(State(), out, complete, err) == Process(W(), h, old(State()), Message(Msg4, ns), rand)
    {
      var mpis := Parse(ns);
      err := ReadFourth(mpis, ns);
      complete := err.None?;
      if complete {
        ResetSMP();
        out := None;
      } else {
        out := Some(ABORT);
      }
    }

    /** Handle one SMP record from the peer. */
    method ProcessSMP(m: Message, rand: Draws) returns (out: Option<Message>, complete: bool, err: Option<Error>)
      requires Valid() && (phase != Expect1 ==> secret != null)
      modifies this
      ensures Valid() && (phase != Expect1 ==> secret != null)
      ensures Reply(State(), out, complete, err) == Process(W(), h, old(State()), m, rand)
    {
      out, complete, err := None, false, None;
      if m.kind == Abort {
        err := if phase != Expect1 then Some(Aborted) else None;
        ResetSMP();
      } else if phase != Expected(m.kind) {
        ResetSMP();
        out := Some(ABORT);
      } else if m.kind == Msg1 {
        out, err := ReadMsg1(m.mpis, rand);
      } else if m.kind == Msg2 {
        out, err := ReadMsg2(m.mpis, rand);
      } else if m.kind == Msg3 {
        out, complete, err := ReadMsg3(m.mpis, rand);
      } else {
        out, complete, err := ReadMsg4(m.mpis, rand);
      }
    }
  }

  ghost predicate Sound(m: Machine)
    reads m, m.secret, m.a2, m.a3, m.b3, m.pb, m.qb, m.g2a, m.g3a, m.g2, m.g3, m.g3b, m.papb, m.qaqb
  {
    m.Valid() && HasSecret(m.State())
  }

  /** One object handles a message; the other, which it may share numbers with, is not affected. */
  method Deliver(to: Machine, other: Machine, m: Message, rand: Draws) returns (out: Option<Message>, complete: bool)
    requires to != other && Sound(to) && Sound(other)
    modifies to
    ensures Sound(to) && Sound(other) && other.State() == old(other.State())
    ensures var r := Process(to.W(), to.h, old(to.State()), m, rand);
            to.State() == r.state && out == r.out && complete == r.complete
  {
    var err;
    out, complete, err := to.ProcessSMP(m, rand);
  }

  method Begin(from: Machine, other: Machine, rand: Draws) returns (m: Message)
    requires from != other && Sound(from) && Sound(other) && from.secret != null
    modifies from
    ensures Sound(from) && Sound(other) && other.State() == old(other.State())
    ensures var (s, ms) := Start(from.W(), from.h, old(from.State()), rand); from.State() == s && m == ms[|ms| - 1]
  {
    var ms := from.StartSMP(rand);
    m := ms[|ms| - 1];
  }

  /** One whole run between two idle objects with a secret each: both complete exactly when the secrets agree. */
  method Authenticate(alice: Machine, bob: Machine, r1: Draws, r2: Draws, r3: Draws, r4: Draws)
    returns (aliceDone: bool, bobDone: bool)
    requires alice != bob && Sound(alice) && Sound(bob) && alice.phase == Expect1 && bob.phase == Expect1
    requires alice.secret != null && bob.secret != null && alice.W() == bob.W() && alice.h == bob.h
    requires GroupOk(alice.W())
    modifies alice, bob
    ensures aliceDone == bobDone
    ensures aliceDone == SecretsAgree(alice.W(), Scale(r1(0), r2(0)), Scale(r1(1), r2(1)), old(alice.secret.v),
                                      old(bob.secret.v))
  {
    SmpVerdict(alice.W(), alice.h, alice.State(), bob.State(), r1, r2, r3, r4);
    var m1 := Begin(alice, bob, r1);
    var m2, _ := Deliver(bob, alice, m1, r2);
    var m3, _ := Deliver(alice, bob, m2.value, r3);
    var m4, done := Deliver(bob, alice, m3.value, r4);
    bobDone := done;
    var _, over := Deliver(alice, bob, m4.value, r4);
    aliceDone := over;
  }
}
