/** The Socialist Millionaires Protocol of golang-x-crypto/otr/smp.go. The hash over MPIs, the random
    draws and the group operations are parameters; ModGroup is the instance the program uses. */
module Smp {
  import opened Bytes
  import opened ModArith

  /** Exponentiation, multiplication and inversion modulo the group prime, the generator and its order.
      Inversion writes to a variable and leaves there what it held when there is no inverse; so its second
      argument is what the variable held. */
  datatype Group = Group(exp: (nat, nat) -> nat, mul: (nat, nat) -> nat, inv: (nat, nat) -> nat, g: nat, q: nat)

  /** SHA-256 over a magic byte and a list of MPIs, as an integer. */
  type Hash = (nat, seq<nat>) -> nat

  /** The successive values a party draws from its entropy source. */
  type Draws = nat -> nat

  datatype Phase = Expect1 | Expect2 | Expect3 | Expect4

  datatype State = State(
    phase: Phase, secret: Option<nat>,
    a2: nat, a3: nat, b3: nat, pb: nat, qb: nat, g2a: nat, g3a: nat,
    g2: nat, g3: nat, g3b: nat, papb: nat, qaqb: nat)

  datatype Kind = Msg1 | Msg2 | Msg3 | Msg4 | Abort

  datatype Message = Message(kind: Kind, mpis: seq<nat>)

  datatype Error = BadArguments | BadProof | Mismatch | SecretMissing | Aborted

  datatype Reply = Reply(state: State, out: Option<Message>, complete: bool, error: Option<Error>)

  function Product(w: Group, x: nat, y: nat): nat { w.mul(x, y) }

  function E(w: Group, b: nat, e: nat): nat { w.exp(b, e) }

  function Inverse(w: Group, x: nat, held: nat): nat { w.inv(x, held) }

  /** r - a*c mod q: the response of a proof of knowledge of a. */
  function Response(w: Group, r: nat, a: nat, c: nat): nat
    requires w.q > 0
  {
    (r - a * c) % w.q
  }

  // ---- message 1 ----

  function GenerateSMP1(w: Group, h: Hash, s: State, rand: Draws): (State, Message)
    requires w.q > 0
  {
    var a2, a3, r2, r3 := rand(0), rand(1), rand(2), rand(3);
    var c2 := h(1, [E(w, w.g, r2)]);
    var c3 := h(2, [E(w, w.g, r3)]);
    (s.(a2 := a2, a3 := a3),
     Message(Msg1, [E(w, w.g, a2), c2, Response(w, r2, a2, c2), E(w, w.g, a3), c3, Response(w, r3, a3, c3)]))
  }

  /** Is (c, d) a proof, under magic m, of knowing the logarithm of v? */
  predicate LogProof(w: Group, h: Hash, m: nat, v: nat, c: nat, d: nat)
  {
    c == h(m, [Product(w, E(w, w.g, d), E(w, v, c))])
  }

  function ProcessSMP1(w: Group, h: Hash, s: State, mpis: seq<nat>): (State, Option<Error>)
  {
    if |mpis| != 6 then (s, Some(BadArguments))
    else if !LogProof(w, h, 1, mpis[0], mpis[1], mpis[2]) || !LogProof(w, h, 2, mpis[3], mpis[4], mpis[5])
        then (s, Some(BadProof))
    else (s.(g2a := mpis[0], g3a := mpis[3]), None)
  }

  // ---- message 2 ----

  function GenerateSMP2(w: Group, h: Hash, s: State, secret: nat, rand: Draws): (State, Message)
    requires w.q > 0
  {
    var b2, b3, r2, r3, r4, r5, r6 := rand(0), rand(1), rand(2), rand(3), rand(4), rand(5), rand(6);
    var c2 := h(3, [E(w, w.g, r2)]);
    var c3 := h(4, [E(w, w.g, r3)]);
    var g2, g3 := E(w, s.g2a, b2), E(w, s.g3a, b3);
    var pb := E(w, g3, r4);
    var qb := Product(w, E(w, w.g, r4), E(w, g2, secret));
    var cp := h(5, [E(w, g3, r5), Product(w, E(w, w.g, r5), E(w, g2, r6))]);
    (s.(b3 := b3, g2 := g2, g3 := g3, pb := pb, qb := qb),
     Message(Msg2, [E(w, w.g, b2), c2, Response(w, r2, b2, c2), E(w, w.g, b3), c3, Response(w, r3, b3, c3),
                    pb, qb, cp, Response(w, r5, r4, cp), Response(w, r6, secret, cp)]))
  }

  /** g^d5 * g2^d6 * u^c */
  function PairProduct(w: Group, g2: nat, u: nat, c: nat, d5: nat, d6: nat): nat {
    Product(w, Product(w, E(w, w.g, d5), E(w, g2, d6)), E(w, u, c))
  }

  /** Is (c, d5, d6) a proof, under magic m, that v and u are g3^r and g^r * g2^x for known r and x? */
  predicate PairProof(w: Group, h: Hash, m: nat, g2: nat, g3: nat, v: nat, u: nat, c: nat, d5: nat, d6: nat)
  {
    c == h(m, [Product(w, E(w, g3, d5), E(w, v, c)), PairProduct(w, g2, u, c, d5, d6)])
  }

  function ProcessSMP2(w: Group, h: Hash, s: State, secret: nat, mpis: seq<nat>,
                       rand: Draws): (State, Option<Message>, Option<Error>)
    requires w.q > 0
  {
    if |mpis| != 11 then (s, None, Some(BadArguments))
    else if !LogProof(w, h, 3, mpis[0], mpis[1], mpis[2]) || !LogProof(w, h, 4, mpis[3], mpis[4], mpis[5])
        then (s, None, Some(BadProof))
    else
      var g2, g3, pb, qb := E(w, mpis[0], s.a2), E(w, mpis[3], s.a3), mpis[6], mpis[7];
      var s1 := s.(g2 := g2, g3 := g3);
      if !PairProof(w, h, 5, g2, g3, pb, qb, mpis[8], mpis[9], mpis[10]) then (s1, None, Some(BadProof))
      else
        var (s2, m) := GenerateSMP3(w, h, s1, secret, mpis[3], pb, qb, rand);
        (s2, Some(m), None)
  }

  // ---- message 3 ----

  function GenerateSMP3(w: Group, h: Hash, s: State, secret: nat, g3b: nat, pb: nat, qb: nat,
                        rand: Draws): (State, Message)
    requires w.q > 0
  {
    var r4, r5, r6, r7 := rand(0), rand(1), rand(2), rand(3);
    var pa := E(w, s.g3, r4);
    var qa := Product(w, E(w, w.g, r4), E(w, s.g2, secret));
    var cp := h(6, [E(w, s.g3, r5), Product(w, E(w, w.g, r5), E(w, s.g2, r6))]);
    var qaqb := Product(w, qa, Inverse(w, qb, secret * cp));
    var cr := h(7, [E(w, w.g, r7), E(w, qaqb, r7)]);
    (s.(g3b := g3b, qaqb := qaqb, papb := Product(w, pa, Inverse(w, pb, s.a3 * cr))),
     Message(Msg3, [pa, qa, cp, Response(w, r5, r4, cp), Response(w, r6, secret, cp),
                    E(w, qaqb, s.a3), cr, Response(w, r7, s.a3, cr)]))
  }

  /** Is (c, d) a proof, under magic m, that v and r have the same logarithm to the bases g and u? */
  predicate SameLogProof(w: Group, h: Hash, m: nat, v: nat, u: nat, r: nat, c: nat, d: nat)
  {
    c == h(m, [Product(w, E(w, w.g, d), E(w, v, c)), Product(w, E(w, u, d), E(w, r, c))])
  }

  function ProcessSMP3(w: Group, h: Hash, s: State, mpis: seq<nat>, rand: Draws): (Option<Message>, Option<Error>)
    requires w.q > 0
  {
    if |mpis| != 8 then (None, Some(BadArguments))
    else
      var pa, qa, ra := mpis[0], mpis[1], mpis[5];
      var qaqb := Product(w, qa, Inverse(w, s.qb, PairProduct(w, s.g2, qa, mpis[2], mpis[3], mpis[4])));
      if !PairProof(w, h, 6, s.g2, s.g3, pa, qa, mpis[2], mpis[3], mpis[4]) then (None, Some(BadProof))
      else if !SameLogProof(w, h, 7, s.g3a, qaqb, ra, mpis[6], mpis[7]) then (None, Some(BadProof))
      else
        var r7 := rand(0);
        var cr := h(8, [E(w, w.g, r7), E(w, qaqb, r7)]);
        var out := Message(Msg4, [E(w, qaqb, s.b3), cr, Response(w, r7, s.b3, cr)]);
        (Some(out), if Product(w, pa, Inverse(w, s.pb, s.b3 * cr)) == E(w, ra, s.b3) then None else Some(Mismatch))
  }

  // ---- message 4 ----

  function ProcessSMP4(w: Group, h: Hash, s: State, mpis: seq<nat>): Option<Error>
  {
    if |mpis| != 3 then Some(BadArguments)
    else if !SameLogProof(w, h, 8, s.g3b, s.qaqb, mpis[0], mpis[1], mpis[2]) then Some(BadProof)
    else if E(w, mpis[0], s.a3) != s.papb then Some(Mismatch)
    else None
  }

  // ---- the state machine ----

  function Reset(s: State): State {
    s.(phase := Expect1, secret := None)
  }

  const ABORT := Message(Abort, [])

  /** startSMP: the messages to send; an attempt in progress is aborted first. */
  function Start(w: Group, h: Hash, s: State, rand: Draws): (State, seq<Message>)
    requires w.q > 0 && s.secret.Some?
  {
    var (s1, m) := GenerateSMP1(w, h, s, rand);
    (s1.(phase := Expect2), if s.phase != Expect1 then [ABORT, m] else [m])
  }

  /** Once past the first message a party has its secret. */
  ghost predicate HasSecret(s: State) {
    s.phase != Expect1 ==> s.secret.Some?
  }

  function OutOfTurn(s: State): Reply {
    Reply(Reset(s), Some(ABORT), false, None)
  }

  /** processSMP on a well-formed record. */
  function Process(w: Group, h: Hash, s: State, m: Message, rand: Draws): (r: Reply)
    requires w.q > 0 && HasSecret(s)
    ensures HasSecret(r.state)
  {
    match m.kind
    case Abort => Reply(Reset(s), None, false, if s.phase != Expect1 then Some(Aborted) else None)
    case Msg1 =>
      if s.phase != Expect1 then OutOfTurn(s)
      else if s.secret.None? then Reply(s, None, false, Some(SecretMissing))
      else
        var (s1, err) := ProcessSMP1(w, h, s, m.mpis);
        if err.Some? then Reply(s1, None, false, err)
        else
          var (s2, out) := GenerateSMP2(w, h, s1.(phase := Expect3), s.secret.value, rand);
          Reply(s2, Some(out), false, None)
    case Msg2 =>
      if s.phase != Expect2 then OutOfTurn(s)
      else
        var (s1, out, err) := ProcessSMP2(w, h, s, s.secret.value, m.mpis, rand);
        if err.Some? then Reply(s1, Some(ABORT), false, err) else Reply(s1.(phase := Expect4), out, false, None)
    case Msg3 =>
      if s.phase != Expect3 then OutOfTurn(s)
      else
        var (out, err) := ProcessSMP3(w, h, s, m.mpis, rand);
        if err.Some? then Reply(s, out, false, err) else Reply(Reset(s), out, true, None)
    case Msg4 =>
      if s.phase != Expect4 then OutOfTurn(s)
      else
        var err := ProcessSMP4(w, h, s, m.mpis);
        if err.Some? then Reply(s, Some(ABORT), false, err) else Reply(Reset(s), None, true, None)
  }

  // ---- exponents of the generator ----

  /** The group element with the given logarithm. */
  ghost function P(w: Group, e: nat): nat {
    w.exp(w.g, e)
  }

  ghost predicate ProductLaw(w: Group, x: nat, y: nat) {
    w.mul(P(w, x), P(w, y)) == P(w, x + y)
  }

  ghost predicate PowerLaw(w: Group, x: nat, y: nat) {
    w.exp(P(w, x), y) == P(w, x * y)
  }

  ghost predicate InverseLaw(w: Group, x: nat, held: nat)
    requires w.q > 0
  {
    w.inv(P(w, x), held) == P(w, (w.q - 1) * x)
  }

  /** The laws the protocol rests on: the powers of the generator form a group of order q. */
  ghost predicate GroupOk(w: Group) {
    && w.q > 0
    && P(w, w.q) == P(w, 0)
    && (forall x: nat, y: nat :: ProductLaw(w, x, y))
    && (forall x: nat, y: nat :: PowerLaw(w, x, y))
    && (forall x: nat, held: nat :: InverseLaw(w, x, held))
  }

  lemma PowerProduct(w: Group, x: nat, y: nat)
    requires GroupOk(w)
    ensures Product(w, P(w, x), P(w, y)) == P(w, x + y)
  {
    assert ProductLaw(w, x, y);
  }

  lemma PowerPower(w: Group, x: nat, y: nat)
    requires GroupOk(w)
    ensures E(w, P(w, x), y) == P(w, x * y)
  {
    assert PowerLaw(w, x, y);
  }

  /** Multiples of the order do not matter. */
  lemma OrderVanishes(w: Group, e: nat, k: nat)
    requires GroupOk(w)
    ensures P(w, e + w.q * k) == P(w, e)
  {
    PowerPower(w, w.q, k);
    PowerPower(w, 0, k);
    assert 0 * k == 0;
    PowerProduct(w, e, w.q * k);
    PowerProduct(w, e, 0);
  }

  /** Logarithms that agree modulo the order give the same element. */
  lemma SameElement(w: Group, x: nat, y: nat, k: int)
    requires GroupOk(w) && x == y + w.q * k
    ensures P(w, x) == P(w, y)
  {
    if k >= 0 {
      OrderVanishes(w, y, k);
    } else {
      assert y == x + w.q * (-k);
      OrderVanishes(w, x, -k);
    }
  }

  /** x + t and x give the same element exactly when t gives the identity. */
  lemma Cancel(w: Group, x: nat, t: nat)
    requires GroupOk(w)
    ensures P(w, x + t) == P(w, x) <==> P(w, t) == P(w, 0)
  {
    PowerProduct(w, x, t);
    PowerProduct(w, x, 0);
    if P(w, x + t) == P(w, x) {
      var u := (w.q - 1) * x;
      PowerProduct(w, x + t, u);
      PowerProduct(w, x, u);
      assert x + u == w.q * x;
      OrderVanishes(w, t, x);
      OrderVanishes(w, 0, x);
    }
  }

  // ---- honest proofs are accepted ----

  /** A response differs from r - a*c by a multiple of the order. */
  lemma ResponseShift(w: Group, r: nat, a: nat, c: nat) returns (k: int)
    requires w.q > 0
    ensures Response(w, r, a, c) + a * c == r + w.q * k
  {
    k := -((r - a * c) / w.q);
    assert r - a * c == w.q * ((r - a * c) / w.q) + Response(w, r, a, c);
  }

  /** Answering with the response undoes the challenge: b*d + (b*a)*c is b*r up to the order. */
  lemma ResponseCloses(w: Group, b: nat, r: nat, a: nat, c: nat)
    requires GroupOk(w)
    ensures P(w, b * Response(w, r, a, c) + b * a * c) == P(w, b * r)
  {
    var d := Response(w, r, a, c);
    var k := ResponseShift(w, r, a, c);
    ResponseExponent(b, d, a, c, r, w.q, k);
    SameElement(w, b * d + b * a * c, b * r, b * k);
  }

  lemma ResponseExponent(b: int, d: int, a: int, c: int, r: int, q: int, k: int)
    requires d + a * c == r + q * k
    ensures b * d + b * a * c == b * r + q * (b * k)
  {
    Distribute(b, d, a * c);
    Distribute(b, r, q * k);
    Associate(b, a, c);
    Associate(b, q, k);
    Associate(q, b, k);
    assert b * q == q * b;
  }

  lemma Distribute(a: int, b: int, c: int)
    ensures a * (b + c) == a * b + a * c
  {
  }

  /** g^(b*d) * (g^(b*a))^c = g^(b*r) */
  lemma ChallengeProduct(w: Group, b: nat, r: nat, a: nat, c: nat)
    requires GroupOk(w)
    ensures Product(w, E(w, P(w, b), Response(w, r, a, c)), E(w, P(w, b * a), c)) == E(w, P(w, b), r)
  {
    var d := Response(w, r, a, c);
    PowerPower(w, b, d);
    PowerPower(w, b * a, c);
    PowerPower(w, b, r);
    PowerProduct(w, b * d, b * a * c);
    ResponseCloses(w, b, r, a, c);
  }

  lemma PowerOne(w: Group, x: nat)
    requires GroupOk(w)
    ensures E(w, w.g, x) == P(w, x) && E(w, P(w, 1), x) == P(w, x)
  {
    PowerPower(w, 1, x);
  }

  lemma LogProofHolds(w: Group, h: Hash, m: nat, a: nat, r: nat)
    requires GroupOk(w)
    ensures var c := h(m, [E(w, w.g, r)]); LogProof(w, h, m, E(w, w.g, a), c, Response(w, r, a, c))
  {
    var c := h(m, [E(w, w.g, r)]);
    var d := Response(w, r, a, c);
    ChallengeProduct(w, 1, r, a, c);
    PowerOne(w, d);
    PowerOne(w, r);
    assert 1 * a == a;
  }

  lemma SameLogProofHolds(w: Group, h: Hash, m: nat, a: nat, e: nat, r: nat)
    requires GroupOk(w)
    ensures var u := P(w, e);
            var c := h(m, [E(w, w.g, r), E(w, u, r)]);
            SameLogProof(w, h, m, E(w, w.g, a), u, E(w, u, a), c, Response(w, r, a, c))
  {
    var u := P(w, e);
    var c := h(m, [E(w, w.g, r), E(w, u, r)]);
    var d := Response(w, r, a, c);
    ChallengeProduct(w, 1, r, a, c);
    PowerOne(w, d);
    PowerOne(w, r);
    assert 1 * a == a;
    ChallengeProduct(w, e, r, a, c);
    PowerPower(w, e, a);
  }

  /** The two-base half of a pair proof. */
  lemma TwoBases(w: Group, e2: nat, r4: nat, x: nat, r5: nat, r6: nat, c: nat)
    requires GroupOk(w)
    ensures var u := Product(w, E(w, w.g, r4), E(w, P(w, e2), x));
            Product(w, Product(w, E(w, w.g, Response(w, r5, r4, c)), E(w, P(w, e2), Response(w, r6, x, c))), E(w, u, c))
            == Product(w, E(w, w.g, r5), E(w, P(w, e2), r6))
  {
    var d5, d6 := Response(w, r5, r4, c), Response(w, r6, x, c);
    PowerPower(w, e2, x);
    PowerProduct(w, r4, e2 * x);
    PowerPower(w, r4 + e2 * x, c);
    PowerPower(w, e2, d6);
    ThreePowers(w, d5, e2 * d6, (r4 + e2 * x) * c);
    assert d5 + e2 * d6 + (r4 + e2 * x) * c == (d5 + r4 * c) + (e2 * d6 + e2 * x * c) by {
      assert (r4 + e2 * x) * c == r4 * c + e2 * x * c;
    }
    PowerProduct(w, d5 + r4 * c, e2 * d6 + e2 * x * c);
    ResponseCloses(w, 1, r5, r4, c);
    assert 1 * d5 + 1 * r4 * c == d5 + r4 * c && 1 * r5 == r5;
    ResponseCloses(w, e2, r6, x, c);
    PowerPower(w, e2, r6);
  }

  lemma ThreePowers(w: Group, x: nat, y: nat, z: nat)
    requires GroupOk(w)
    ensures Product(w, Product(w, P(w, x), P(w, y)), P(w, z)) == P(w, x + y + z)
  {
    PowerProduct(w, x, y);
    PowerProduct(w, x + y, z);
  }

  lemma PairProofHolds(w: Group, h: Hash, m: nat, e2: nat, e3: nat, r4: nat, x: nat, r5: nat, r6: nat)
    requires GroupOk(w)
    ensures var g2, g3 := P(w, e2), P(w, e3);
            var c := h(m, [E(w, g3, r5), Product(w, E(w, w.g, r5), E(w, g2, r6))]);
            PairProof(w, h, m, g2, g3, E(w, g3, r4), Product(w, E(w, w.g, r4), E(w, g2, x)), c,
                      Response(w, r5, r4, c), Response(w, r6, x, c))
  {
    var g2, g3 := P(w, e2), P(w, e3);
    var c := h(m, [E(w, g3, r5), Product(w, E(w, w.g, r5), E(w, g2, r6))]);
    ChallengeProduct(w, e3, r5, r4, c);
    PowerPower(w, e3, r4);
    TwoBases(w, e2, r4, x, r5, r6, c);
  }

  // ---- the protocol between two honest parties ----

  ghost function Scale(x: nat, y: nat): nat {
    x * y
  }

  /** The logarithm of g^u / g^v. */
  ghost function Ratio(w: Group, u: nat, v: nat): nat
    requires w.q > 0
  {
    u + Scale(w.q - 1, v)
  }

  /** The logarithm of g^r * g2^x, where g2 has logarithm d. */
  ghost function Blind(d: nat, r: nat, x: nat): nat {
    r + Scale(d, x)
  }

  lemma ScaledPower(w: Group, x: nat, y: nat)
    requires GroupOk(w)
    ensures E(w, P(w, x), y) == P(w, Scale(x, y)) && Scale(x, y) == Scale(y, x)
  {
    PowerPower(w, x, y);
  }

  lemma QuotientPower(w: Group, u: nat, v: nat, held: nat)
    requires GroupOk(w)
    ensures Product(w, P(w, u), Inverse(w, P(w, v), held)) == P(w, Ratio(w, u, v))
  {
    assert InverseLaw(w, v, held);
    PowerProduct(w, u, Scale(w.q - 1, v));
  }

  /** Both parties compute the blinded secret g^r * g2^x. */
  lemma Blinded(w: Group, d: nat, r: nat, x: nat)
    requires GroupOk(w)
    ensures Product(w, E(w, w.g, r), E(w, P(w, d), x)) == P(w, Blind(d, r, x))
  {
    ScaledPower(w, d, x);
    PowerProduct(w, r, Scale(d, x));
  }

  /** Equal elements are those whose quotient is the identity. */
  lemma EqualIffRatio(w: Group, u: nat, v: nat)
    requires GroupOk(w)
    ensures P(w, u) == P(w, v) <==> P(w, Ratio(w, u, v)) == P(w, 0)
  {
    Cancel(w, v, Ratio(w, u, v));
    assert v + Ratio(w, u, v) == u + w.q * v;
    OrderVanishes(w, u, v);
  }

  /** Whether the secrets agree, as the protocol sees it: g2^(x*a3*b3) = g2^(y*a3*b3). */
  ghost predicate SecretsAgree(w: Group, d: nat, e: nat, x: nat, y: nat) {
    E(w, E(w, w.g, d), Scale(x, e)) == E(w, E(w, w.g, d), Scale(y, e))
  }

  /** The comparison both parties make at the end, in terms of the secrets. */
  lemma FinalComparison(w: Group, d: nat, e: nat, ra: nat, rb: nat, x: nat, y: nat)
    requires GroupOk(w)
    ensures P(w, Ratio(w, Scale(e, ra), Scale(e, rb))) == P(w, Scale(Ratio(w, Blind(d, ra, x), Blind(d, rb, y)), e))
            <==> SecretsAgree(w, d, e, x, y)
  {
    var l := Ratio(w, Scale(e, ra), Scale(e, rb));
    var t := Ratio(w, Scale(d, Scale(x, e)), Scale(d, Scale(y, e)));
    RatioSplits(w, d, e, ra, rb, x, y);
    Cancel(w, l, t);
    EqualIffRatio(w, Scale(d, Scale(x, e)), Scale(d, Scale(y, e)));
    ScaledPower(w, d, Scale(x, e));
    ScaledPower(w, d, Scale(y, e));
  }

  /** The secrets agree exactly when g2 to the power (x - y) * a3 * b3 is one, the difference taken modulo the order. */
  lemma AgreeByDifference(w: Group, d: nat, e: nat, x: nat, y: nat)
    requires GroupOk(w)
    ensures SecretsAgree(w, d, e, x, y) <==> E(w, E(w, w.g, d), Scale((x - y) % w.q, e)) == P(w, 0)
  {
    var k, u, v := (x - y) % w.q, Scale(d, Scale(x, e)), Scale(d, Scale(y, e));
    ScaledPower(w, d, Scale(x, e));
    ScaledPower(w, d, Scale(y, e));
    ScaledPower(w, d, Scale(k, e));
    EqualIffRatio(w, u, v);
    var j := (x - y) / w.q;
    assert x == k + y + w.q * j;
    DifferenceExponent(d, e, x, y, k, w.q, j);
    SameElement(w, Ratio(w, u, v), Scale(d, Scale(k, e)), v + d * (j * e));
  }

  lemma DifferenceExponent(d: int, e: int, x: int, y: int, k: int, q: int, j: int)
    requires x == k + y + q * j
    ensures d * (x * e) + (q - 1) * (d * (y * e)) == d * (k * e) + q * (d * (y * e) + d * (j * e))
  {
    assert x * e == k * e + y * e + q * (j * e) by {
      assert (q * j) * e == q * (j * e);
      assert (k + y + q * j) * e == k * e + y * e + (q * j) * e;
    }
    assert d * (x * e) == d * (k * e) + d * (y * e) + d * (q * (j * e));
    Rearrange(q, d, j * e);
    assert d * (q * (j * e)) == q * (d * (j * e));
    assert (q - 1) * (d * (y * e)) == q * (d * (y * e)) - d * (y * e);
    Distribute(q, d * (y * e), d * (j * e));
  }

  lemma RatioSplits(w: Group, d: nat, e: nat, ra: nat, rb: nat, x: nat, y: nat)
    requires w.q > 0
    ensures Scale(Ratio(w, Blind(d, ra, x), Blind(d, rb, y)), e) ==
            Ratio(w, Scale(e, ra), Scale(e, rb)) + Ratio(w, Scale(d, Scale(x, e)), Scale(d, Scale(y, e)))
  {
    var k := w.q - 1;
    BlindScales(d, ra, x, e);
    BlindScales(d, rb, y, e);
    assert (k * Blind(d, rb, y)) * e == k * (e * rb) + k * (d * (y * e)) by {
      Associate(k, Blind(d, rb, y), e);
      Distribute(k, e * rb, d * (y * e));
    }
    Distribute(e, Blind(d, ra, x), k * Blind(d, rb, y));
  }

  lemma BlindScales(d: nat, r: nat, x: nat, e: nat)
    ensures Blind(d, r, x) * e == e * r + d * (x * e)
  {
    Distribute(e, r, d * x);
    Associate(d, x, e);
    assert e * (d * x) == (d * x) * e;
  }

  /** Bob after an honest first message, in logarithms: g2 has logarithm d and g3 has logarithm e. */
  ghost predicate BobWaits(w: Group, b: State, d: nat, e: nat, a3: nat, r4: nat) {
    && b.phase == Expect3 && b.secret.Some? && b.g2 == P(w, d) && b.g3 == P(w, e) && b.g3a == P(w, a3)
    && e == Scale(a3, b.b3) && b.pb == P(w, Scale(e, r4)) && b.qb == P(w, Blind(d, r4, b.secret.value))
  }

  /** Bob's second message, in logarithms, with its proofs. */
  ghost predicate SecondMessage(w: Group, h: Hash, m: seq<nat>, d: nat, e: nat, b2: nat, b3: nat, r4: nat, y: nat) {
    && |m| == 11
    && LogProof(w, h, 3, m[0], m[1], m[2]) && m[0] == P(w, b2)
    && LogProof(w, h, 4, m[3], m[4], m[5]) && m[3] == P(w, b3)
    && PairProof(w, h, 5, P(w, d), P(w, e), m[6], m[7], m[8], m[9], m[10])
    && m[6] == P(w, Scale(e, r4)) && m[7] == P(w, Blind(d, r4, y))
  }

  lemma BobGenerates(w: Group, h: Hash, s: State, y: nat, a2: nat, a3: nat, rand: Draws)
    requires GroupOk(w) && s.g2a == P(w, a2) && s.g3a == P(w, a3) && s.phase == Expect3 && s.secret == Some(y)
    ensures var (t, m) := GenerateSMP2(w, h, s, y, rand);
            var d, e := Scale(a2, rand(0)), Scale(a3, rand(1));
            && BobWaits(w, t, d, e, a3, rand(4)) && t.secret == s.secret && t.b3 == rand(1)
            && m.kind == Msg2 && SecondMessage(w, h, m.mpis, d, e, rand(0), rand(1), rand(4), y)
  {
    var d, e := Scale(a2, rand(0)), Scale(a3, rand(1));
    LogProofHolds(w, h, 3, rand(0), rand(2));
    LogProofHolds(w, h, 4, rand(1), rand(3));
    ScaledPower(w, a2, rand(0));
    ScaledPower(w, a3, rand(1));
    ScaledPower(w, e, rand(4));
    PairProofHolds(w, h, 5, d, e, rand(4), y, rand(5), rand(6));
    Blinded(w, d, rand(4), y);
  }

  /** Bob accepts an honest first message and answers it. */
  lemma BobAnswers(w: Group, h: Hash, a: State, b: State, randA: Draws, randB: Draws)
    requires GroupOk(w) && b.phase == Expect1 && b.secret.Some?
    ensures var r := Process(w, h, b, GenerateSMP1(w, h, a, randA).1, randB);
            var d, e := Scale(randA(0), randB(0)), Scale(randA(1), randB(1));
            && r.error.None? && !r.complete && r.out.Some? && r.out.value.kind == Msg2
            && BobWaits(w, r.state, d, e, randA(1), randB(4)) && r.state.secret == b.secret && r.state.b3 == randB(1)
            && SecondMessage(w, h, r.out.value.mpis, d, e, randB(0), randB(1), randB(4), b.secret.value)
  {
    LogProofHolds(w, h, 1, randA(0), randA(2));
    LogProofHolds(w, h, 2, randA(1), randA(3));
    var s := b.(g2a := P(w, randA(0)), g3a := P(w, randA(1)), phase := Expect3);
    BobGenerates(w, h, s, b.secret.value, randA(0), randA(1), randB);
  }

  /** Alice after sending the third message, in logarithms. */
  ghost predicate AliceWaits(w: Group, a: State, d: nat, e: nat, b3: nat, ra: nat, rb: nat, x: nat, y: nat)
    requires w.q > 0
  {
    && a.phase == Expect4 && a.secret.Some? && e == Scale(a.a3, b3) && a.g3b == P(w, b3)
    && a.qaqb == P(w, Ratio(w, Blind(d, ra, x), Blind(d, rb, y)))
    && a.papb == P(w, Ratio(w, Scale(e, ra), Scale(e, rb)))
  }

  ghost predicate ThirdMessage(w: Group, h: Hash, m: seq<nat>, d: nat, e: nat, a3: nat, ra: nat, rb: nat, x: nat,
                               y: nat)
    requires w.q > 0
  {
    var u := P(w, Ratio(w, Blind(d, ra, x), Blind(d, rb, y)));
    && |m| == 8 && m[0] == P(w, Scale(e, ra)) && m[1] == P(w, Blind(d, ra, x)) && m[5] == E(w, u, a3)
    && PairProof(w, h, 6, P(w, d), P(w, e), m[0], m[1], m[2], m[3], m[4])
    && SameLogProof(w, h, 7, P(w, a3), u, m[5], m[6], m[7])
  }

  /** The quotients message 3 leaves, in logarithms. */
  lemma AliceLeaves(w: Group, h: Hash, s: State, x: nat, y: nat, d: nat, e: nat, b3: nat, rb: nat, rand: Draws)
    requires GroupOk(w) && s.g2 == P(w, d) && s.g3 == P(w, e)
    ensures var t := GenerateSMP3(w, h, s, x, P(w, b3), P(w, Scale(e, rb)), P(w, Blind(d, rb, y)), rand).0;
            && t.qaqb == P(w, Ratio(w, Blind(d, rand(0), x), Blind(d, rb, y)))
            && t.papb == P(w, Ratio(w, Scale(e, rand(0)), Scale(e, rb)))
  {
    var (_, m) := GenerateSMP3(w, h, s, x, P(w, b3), P(w, Scale(e, rb)), P(w, Blind(d, rb, y)), rand);
    ScaledPower(w, e, rand(0));
    Blinded(w, d, rand(0), x);
    QuotientPower(w, Blind(d, rand(0), x), Blind(d, rb, y), x * m.mpis[2]);
    QuotientPower(w, Scale(e, rand(0)), Scale(e, rb), s.a3 * m.mpis[6]);
  }

  lemma AliceGenerates(w: Group, h: Hash, s: State, x: nat, y: nat, d: nat, e: nat, b3: nat, rb: nat, rand: Draws)
    requires GroupOk(w) && s.g2 == P(w, d) && s.g3 == P(w, e) && e == Scale(s.a3, b3) && s.secret == Some(x)
    ensures var (t, m) := GenerateSMP3(w, h, s, x, P(w, b3), P(w, Scale(e, rb)), P(w, Blind(d, rb, y)), rand);
            && AliceWaits(w, t.(phase := Expect4), d, e, b3, rand(0), rb, x, y) && t.a3 == s.a3 && t.secret == s.secret
            && m.kind == Msg3 && ThirdMessage(w, h, m.mpis, d, e, s.a3, rand(0), rb, x, y)
  {
    AliceLeaves(w, h, s, x, y, d, e, b3, rb, rand);
    ScaledPower(w, e, rand(0));
    Blinded(w, d, rand(0), x);
    PairProofHolds(w, h, 6, d, e, rand(0), x, rand(1), rand(2));
    SameLogProofHolds(w, h, 7, s.a3, Ratio(w, Blind(d, rand(0), x), Blind(d, rb, y)), rand(3));
  }

  /** Alice accepts Bob's honest second message and answers it. */
  lemma AliceAnswers(w: Group, h: Hash, a: State, m: Message, d: nat, e: nat, b2: nat, b3: nat, rb: nat, y: nat,
                     rand: Draws)
    requires GroupOk(w) && a.phase == Expect2 && a.secret.Some? && m.kind == Msg2
    requires d == Scale(a.a2, b2) && e == Scale(a.a3, b3) && SecondMessage(w, h, m.mpis, d, e, b2, b3, rb, y)
    ensures var r := Process(w, h, a, m, rand);
            && r.error.None? && !r.complete && r.out.Some? && r.out.value.kind == Msg3
            && AliceWaits(w, r.state, d, e, b3, rand(0), rb, a.secret.value, y) && r.state.a3 == a.a3
            && ThirdMessage(w, h, r.out.value.mpis, d, e, a.a3, rand(0), rb, a.secret.value, y)
  {
    ScaledPower(w, b2, a.a2);
    ScaledPower(w, b3, a.a3);
    var s := a.(g2 := P(w, d), g3 := P(w, e));
    AliceGenerates(w, h, s, a.secret.value, y, d, e, b3, rb, rand);
  }

  ghost predicate FourthMessage(w: Group, h: Hash, m: seq<nat>, b3: nat, ratio: nat) {
    |m| == 3 && m[0] == E(w, P(w, ratio), b3) && SameLogProof(w, h, 8, P(w, b3), P(w, ratio), m[0], m[1], m[2])
  }

  /** Bob's verdict on an honest third message: both proofs hold, and he completes exactly when the
      secrets agree; either way he sends the fourth message. */
  lemma BobConcludes(w: Group, h: Hash, b: State, m: Message, d: nat, e: nat, a3: nat, ra: nat, rb: nat, x: nat,
                     rand: Draws)
    requires GroupOk(w) && BobWaits(w, b, d, e, a3, rb) && m.kind == Msg3
    requires ThirdMessage(w, h, m.mpis, d, e, a3, ra, rb, x, b.secret.value)
    ensures var r := Process(w, h, b, m, rand);
            var agree := SecretsAgree(w, d, e, x, b.secret.value);
            && r.complete == agree && r.error == (if agree then None else Some(Mismatch))
            && r.state == (if agree then Reset(b) else b)
            && r.out.Some? && r.out.value.kind == Msg4
            && FourthMessage(w, h, r.out.value.mpis, b.b3, Ratio(w, Blind(d, ra, x), Blind(d, rb, b.secret.value)))
  {
    var y := b.secret.value;
    var ratio := Ratio(w, Blind(d, ra, x), Blind(d, rb, y));
    var u := m.mpis;
    QuotientPower(w, Blind(d, ra, x), Blind(d, rb, y), PairProduct(w, b.g2, u[1], u[2], u[3], u[4]));
    QuotientPower(w, Scale(e, ra), Scale(e, rb), b.b3 * h(8, [E(w, w.g, rand(0)), E(w, P(w, ratio), rand(0))]));
    TwoPowers(w, ratio, a3, b.b3);
    FinalComparison(w, d, e, ra, rb, x, y);
    SameLogProofHolds(w, h, 8, b.b3, ratio, rand(0));
  }

  lemma TwoPowers(w: Group, u: nat, x: nat, y: nat)
    requires GroupOk(w)
    ensures E(w, E(w, P(w, u), x), y) == P(w, Scale(u, Scale(x, y)))
  {
    ScaledPower(w, u, x);
    ScaledPower(w, Scale(u, x), y);
    Associate(u, x, y);
  }

  /** Alice's verdict on the fourth message: the same as Bob's. */
  lemma AliceConcludes(w: Group, h: Hash, a: State, m: Message, d: nat, e: nat, b3: nat, ra: nat, rb: nat, x: nat,
                       y: nat, rand: Draws)
    requires GroupOk(w) && AliceWaits(w, a, d, e, b3, ra, rb, x, y) && m.kind == Msg4
    requires FourthMessage(w, h, m.mpis, b3, Ratio(w, Blind(d, ra, x), Blind(d, rb, y)))
    ensures var r := Process(w, h, a, m, rand);
            var agree := SecretsAgree(w, d, e, x, y);
            && r.complete == agree && r.error == (if agree then None else Some(Mismatch))
            && r.state == (if agree then Reset(a) else a) && r.out == (if agree then None else Some(ABORT))
  {
    TwoPowers(w, Ratio(w, Blind(d, ra, x), Blind(d, rb, y)), b3, a.a3);
    ScaledPower(w, b3, a.a3);
    FinalComparison(w, d, e, ra, rb, x, y);
  }

  datatype Transcript = Transcript(bob1: Reply, alice1: Reply, bob2: Reply, alice2: Reply)

  /** The four exchanges, with the draws of each step. */
  function Honest(w: Group, h: Hash, a: State, b: State, r1: Draws, r2: Draws, r3: Draws, r4: Draws): Option<Transcript>
    requires w.q > 0 && a.secret.Some? && HasSecret(b)
  {
    var (a1, ms) := Start(w, h, a, r1);
    var bob1 := Process(w, h, b, ms[|ms| - 1], r2);
    if bob1.out.None? then None
    else
      var alice1 := Process(w, h, a1, bob1.out.value, r3);
      if alice1.out.None? then None
      else
        var bob2 := Process(w, h, bob1.state, alice1.out.value, r4);
        if bob2.out.None? then None
        else Some(Transcript(bob1, alice1, bob2, Process(w, h, alice1.state, bob2.out.value, r4)))
  }

  /** How a run ends when the secrets agree, and how when they do not. */
  ghost predicate Verdict(t: Transcript, agree: bool) {
    && t.bob1.error.None? && t.alice1.error.None? && t.bob2.complete == agree && t.alice2.complete == agree
    && (agree ==> && t.bob2.error.None? && t.alice2.error.None?
                  && t.bob2.state.phase == Expect1 && t.bob2.state.secret.None?
                  && t.alice2.state.phase == Expect1 && t.alice2.state.secret.None?)
    && (!agree ==> && t.bob2.error == Some(Mismatch) && t.alice2.error == Some(Mismatch) && t.alice2.out == Some(ABORT)
                   && t.bob2.state.phase == Expect3 && t.alice2.state.phase == Expect4)
  }

  /** Between two honest parties with any random exponents every proof is accepted, both final
      comparisons give the same verdict, and that verdict is whether the secrets agree. */
  lemma SmpVerdict(w: Group, h: Hash, a: State, b: State, r1: Draws, r2: Draws, r3: Draws, r4: Draws)
    requires GroupOk(w) && a.phase == Expect1 && b.phase == Expect1 && a.secret.Some? && b.secret.Some?
    ensures var t := Honest(w, h, a, b, r1, r2, r3, r4);
            t.Some? && Verdict(t.value, SecretsAgree(w, Scale(r1(0), r2(0)), Scale(r1(1), r2(1)), a.secret.value,
                                                     b.secret.value))
  {
    var x, y := a.secret.value, b.secret.value;
    var d, e := Scale(r1(0), r2(0)), Scale(r1(1), r2(1));
    var (a1, ms) := Start(w, h, a, r1);
    BobAnswers(w, h, a, b, r1, r2);
    var bob1 := Process(w, h, b, ms[0], r2);
    AliceAnswers(w, h, a1, bob1.out.value, d, e, r2(0), r2(1), r2(4), y, r3);
    var alice1 := Process(w, h, a1, bob1.out.value, r3);
    BobConcludes(w, h, bob1.state, alice1.out.value, d, e, r1(1), r3(0), r2(4), x, r4);
    var bob2 := Process(w, h, bob1.state, alice1.out.value, r4);
    AliceConcludes(w, h, alice1.state, bob2.out.value, d, e, r2(1), r3(0), r2(4), x, y, r4);
  }

  /** Equal secrets always complete on both sides and leave both machines ready for a new run. */
  lemma EqualSecretsComplete(w: Group, h: Hash, a: State, b: State, r1: Draws, r2: Draws, r3: Draws, r4: Draws)
    requires GroupOk(w) && a.phase == Expect1 && b.phase == Expect1 && a.secret.Some? && a.secret == b.secret
    ensures var t := Honest(w, h, a, b, r1, r2, r3, r4);
            && t.Some? && t.value.bob2.complete && t.value.alice2.complete
            && t.value.bob2.state.phase == Expect1 && t.value.alice2.state.phase == Expect1
  {
    SmpVerdict(w, h, a, b, r1, r2, r3, r4);
  }

  // ---- the group the code computes in ----

  ghost predicate HasInverse(x: nat, p: nat) { exists z: nat :: z < p && x * z % p == 1 }

  function InverseFrom(x: nat, p: nat, y: nat, held: nat): (r: nat)
    ensures (exists z: nat :: y <= z < p && x * z % p == 1) ==> y <= r < p && x * r % p == 1
    ensures !(exists z: nat :: y <= z < p && x * z % p == 1) ==> r == held
    decreases p - y
  {
    if y >= p then held else if x * y % p == 1 then y else InverseFrom(x, p, y + 1, held)
  }

  /** The inverse modulo p when there is one; otherwise the receiver keeps what it held (`big.Int.ModInverse`). */
  function ModInverse(x: nat, p: nat, held: nat): (r: nat)
    ensures if HasInverse(x, p) then r < p && x * r % p == 1 else r == held
  {
    InverseFrom(x, p, 0, held)
  }

  /** Arithmetic modulo p with a generator of order q. */
  function ModGroup(p: nat, q: nat, g: nat): Group
    requires p > 1
  {
    Group((b: nat, e: nat) => Exp(b, e, p), (x: nat, y: nat) => x * y % p,
          (x: nat, held: nat) => ModInverse(x, p, held), g, q)
  }

  lemma TimesUnit(y: nat, u: nat, m: nat)
    requires m > 0 && u % m == 1
    ensures y * u % m == y % m
  {
    MulMod(y, u, m);
  }

  lemma SmallMod(y: nat, m: nat)
    requires y < m
    ensures y % m == y
  {
  }

  lemma Rearrange(x: int, y: int, z: int)
    ensures y * (x * z) == z * (x * y)
  {
    Associate(y, x, z);
    assert y * x == x * y;
  }

  lemma InverseIsUnique(x: nat, y: nat, z: nat, p: nat)
    requires p > 1 && y < p && z < p && x * y % p == 1 && x * z % p == 1
    ensures y == z
  {
    TimesUnit(y, x * z, p);
    TimesUnit(z, x * y, p);
    Rearrange(x, y, z);
    SmallMod(y, p);
    SmallMod(z, p);
  }

  /** What the receiver held does not matter if and only if there is an inverse. */
  lemma HeldMatters(x: nat, p: nat)
    requires p > 1
    ensures (forall u: nat, v: nat :: ModInverse(x, p, u) == ModInverse(x, p, v)) <==> HasInverse(x, p)
  {
    if HasInverse(x, p) {
      forall u: nat, v: nat
        ensures ModInverse(x, p, u) == ModInverse(x, p, v)
      {
        InverseIsUnique(x, ModInverse(x, p, u), ModInverse(x, p, v), p);
      }
    } else {
      assert ModInverse(x, p, 0) != ModInverse(x, p, 1);
    }
  }

  lemma {:induction false} PowerOfOne(k: nat)
    ensures Pow(1, k) == 1
  {
    if k != 0 { PowerOfOne(k - 1); }
  }

  /** The inverse of g^e is g^((q-1)e). */
  lemma InverseOfPower(p: nat, q: nat, g: nat, e: nat, held: nat)
    requires p > 1 && q > 0 && Exp(g, q, p) == 1
    ensures ModInverse(Exp(g, e, p), p, held) == Exp(g, Scale(q - 1, e), p)
  {
    var y := Exp(g, Scale(q - 1, e), p);
    ExpAdd(g, e, Scale(q - 1, e), p);
    assert e + Scale(q - 1, e) == q * e;
    ExpExp(g, q, e, p);
    PowerOfOne(e);
    SmallMod(1, p);
    assert 0 <= y < p && Exp(g, e, p) * y % p == 1;
    InverseIsUnique(Exp(g, e, p), y, ModInverse(Exp(g, e, p), p, held), p);
  }

  /** The laws hold of arithmetic modulo p for every generator whose q-th power is one. */
  lemma ModGroupOk(p: nat, q: nat, g: nat)
    requires p > 1 && q > 0 && Exp(g, q, p) == 1
    ensures GroupOk(ModGroup(p, q, g))
  {
    var w := ModGroup(p, q, g);
    SmallMod(1, p);
    forall x: nat, y: nat
      ensures ProductLaw(w, x, y) && PowerLaw(w, x, y)
    {
      ExpAdd(g, x, y, p);
      ExpExp(g, x, y, p);
    }
    forall x: nat, held: nat
      ensures InverseLaw(w, x, held)
    {
      InverseOfPower(p, q, g, x, held);
    }
  }
}
