/**
 The server-to-server handshake as many concurrent sessions of honest burrows,
 over a network an attacker owns. The attacker chooses every message, replays
 what it likes, and signs with any key that is not an honest burrow's. A burrow
 signs only what its handshake code signs, and other messages that do not begin
 with the handshake's context.

 The rate limits and the approval of an authenticated peer come after or beside
 these steps and are not part of this model.
 */
module Handshake {
  import opened Base
  import opened Names
  import opened Transcript

  const FED_PROTOCOL := 2

  /** An honest burrow: its key and its immutable, valid federation origin. */
  datatype Server = Server(key: Key, origin: string)

  datatype Proof = Sig(signer: Key, over: seq<byte>) | Garbage

  datatype Stage = Waiting | Admitted | Refused

  datatype Session =
    | Dialing(server: nat, nonce: Nonce, wantOrigin: string, wantKey: Option<Key>)
    | Abandoned(server: nat, nonce: Nonce)
    | Proved(server: nat, terms: Terms)
    | Answered(server: nat, terms: Terms, stage: Stage)

  /** `signed` is every signature an honest key has made. */
  datatype World = World(sessions: seq<Session>, signed: set<(Key, seq<byte>)>)

  datatype Step =
    | Dial(server: nat, nonce: Nonce, wantOrigin: string, wantKey: Option<Key>)
    | Hello(server: nat, version: nat, key: Key, origin: string, peerNonce: Nonce, nonce: Nonce)
    | HelloAck(session: nat, version: nat, key: Key, origin: string, nonce: Nonce, proof: Proof)
    | DialerProof(session: nat, proof: Proof)
    | SignOther(server: nat, message: seq<byte>)

  predicate ValidServers(servers: seq<Server>) {
    forall i :: 0 <= i < |servers| ==> ValidServerName(servers[i].origin)
  }

  predicate HonestKey(servers: seq<Server>, k: Key) {
    exists i :: 0 <= i < |servers| && servers[i].key == k
  }

  predicate Unforged(servers: seq<Server>, w: World, p: Proof) {
    p.Sig? && HonestKey(servers, p.signer) ==> (p.signer, p.over) in w.signed
  }

  /** The nonce a session drew itself. */
  function OwnNonce(x: Session): Nonce {
    match x
    case Dialing(_, nonce, _, _) => nonce
    case Abandoned(_, nonce) => nonce
    case Proved(_, t) => t.dialerNonce
    case Answered(_, t, _) => t.listenerNonce
  }

  /** 32 random bytes: never drawn before. */
  predicate Fresh(w: World, nonce: Nonce) {
    forall i :: 0 <= i < |w.sessions| ==> OwnNonce(w.sessions[i]) != nonce
  }

  predicate Enabled(servers: seq<Server>, w: World, step: Step) {
    match step
    case Dial(s, nonce, _, _) => s < |servers| && Fresh(w, nonce)
    case Hello(s, _, _, _, _, nonce) => s < |servers| && Fresh(w, nonce)
    case HelloAck(i, _, _, _, _, proof) =>
      i < |w.sessions| && w.sessions[i].Dialing? && w.sessions[i].server < |servers| && Unforged(servers, w, proof)
    case DialerProof(i, proof) =>
      i < |w.sessions| && w.sessions[i].Answered? && w.sessions[i].stage.Waiting? && Unforged(servers, w, proof)
    case SignOther(s, message) => s < |servers| && !(AUTH_CONTEXT <= message)
  }

  /** `authenticate_peer` up to its reply: what it signs, if it answers at all. */
  function Answer(me: Server, version: nat, key: Key, origin: string, peerNonce: Nonce, nonce: Nonce): Option<Terms> {
    if version != FED_PROTOCOL then None
    else if !ValidServerName(origin) then None
    else if origin == me.origin && key != me.key then None
    else Some(Terms(key, me.key, origin, me.origin, peerNonce, nonce))
  }

  /** `dial_peer` on the reply: what it proves, if it accepts the listener. */
  function Conclude(me: Server, x: Session, version: nat, key: Key, origin: string, nonce: Nonce,
      proof: Proof): Option<Terms>
    requires x.Dialing? && ValidServerName(me.origin)
  {
    if version != FED_PROTOCOL then None
    else if !ValidServerName(origin) || origin != x.wantOrigin then None
    else if origin == me.origin && key != me.key then None
    else if x.wantKey.Some? && x.wantKey.value != key then None
    else
      var t := Terms(me.key, key, me.origin, origin, x.nonce, nonce);
      NameFits(me.origin);
      NameFits(origin);
      if proof != Sig(key, Signable(t)) then None else Some(t)
  }

  lemma NameFits(name: string)
    requires ValidServerName(name)
    ensures Octets(name) && |name| < 0x1_0000
  {
    NameOctets(name);
  }

  function Next(servers: seq<Server>, w: World, step: Step): World
    requires ValidServers(servers)
  {
    if !Enabled(servers, w, step) then w
    else
      match step
      case Dial(s, nonce, wantOrigin, wantKey) =>
        w.(sessions := w.sessions + [Dialing(s, nonce, wantOrigin, wantKey)])
      case Hello(s, version, key, origin, peerNonce, nonce) =>
        var t := Answer(servers[s], version, key, origin, peerNonce, nonce);
        if t.None? then w
        else
          NameFits(origin);
          NameFits(servers[s].origin);
          World(w.sessions + [Answered(s, t.value, Waiting)], w.signed + {(servers[s].key, Signable(t.value))})
      case HelloAck(i, version, key, origin, nonce, proof) =>
        var x := w.sessions[i];
        var me := servers[x.server];
        var t := Conclude(me, x, version, key, origin, nonce, proof);
        if t.None? then w.(sessions := w.sessions[i := Abandoned(x.server, x.nonce)])
        else
          NameFits(origin);
          NameFits(me.origin);
          World(w.sessions[i := Proved(x.server, t.value)], w.signed + {(me.key, Signable(t.value))})
      case DialerProof(i, proof) =>
        var x := w.sessions[i];
        var good := Encodable(x.terms) && proof == Sig(x.terms.dialerKey, Signable(x.terms));
        w.(sessions := w.sessions[i := x.(stage := if good then Admitted else Refused)])
      case SignOther(s, message) => w.(signed := w.signed + {(servers[s].key, message)})
  }

  function After(servers: seq<Server>, steps: seq<Step>): World
    requires ValidServers(servers)
  {
    if |steps| == 0 then World([], {})
    else Next(servers, After(servers, steps[..|steps| - 1]), steps[|steps| - 1])
  }

  // ---- what every run keeps ----------------------------------------------------------

  /** `x` is a session in which the owner of `k` signed exactly `m`. */
  predicate Made(servers: seq<Server>, x: Session, k: Key, m: seq<byte>) {
    && (x.Proved? || x.Answered?) && x.server < |servers| && servers[x.server].key == k
    && Encodable(x.terms) && m == Signable(x.terms)
    && k == (if x.Proved? then x.terms.dialerKey else x.terms.listenerKey)
  }

  /** A session writes its own key and origin in its own role. */
  predicate SessionOk(servers: seq<Server>, x: Session) {
    && x.server < |servers|
    && (x.Proved? ==>
          Encodable(x.terms)
          && x.terms.dialerKey == servers[x.server].key && x.terms.dialerOrigin == servers[x.server].origin)
    && (x.Answered? ==>
          Encodable(x.terms)
          && x.terms.listenerKey == servers[x.server].key && x.terms.listenerOrigin == servers[x.server].origin)
  }

  /** What the session was shown before it accepted. */
  predicate Shown(servers: seq<Server>, w: World, x: Session)
    requires SessionOk(servers, x)
  {
    && (x.Proved? && HonestKey(servers, x.terms.listenerKey) ==> (x.terms.listenerKey, Signable(x.terms)) in w.signed)
    && (x.Answered? && x.stage.Admitted? && HonestKey(servers, x.terms.dialerKey)
        ==> (x.terms.dialerKey, Signable(x.terms)) in w.signed)
  }

  predicate SomeMade(servers: seq<Server>, w: World, k: Key, m: seq<byte>) {
    exists i :: 0 <= i < |w.sessions| && Made(servers, w.sessions[i], k, m)
  }

  ghost predicate Inv(servers: seq<Server>, w: World) {
    && (forall i :: 0 <= i < |w.sessions| ==> SessionOk(servers, w.sessions[i]) && Shown(servers, w, w.sessions[i]))
    && (forall i, j :: 0 <= i < j < |w.sessions| ==> OwnNonce(w.sessions[i]) != OwnNonce(w.sessions[j]))
    && (forall k, m :: (k, m) in w.signed && AUTH_CONTEXT <= m ==> SomeMade(servers, w, k, m))
  }

  /** Replacing one session by a later stage of itself, or adding one, loses no signer. */
  lemma MadeKept(servers: seq<Server>, w: World, w': World, k: Key, m: seq<byte>)
    requires |w.sessions| <= |w'.sessions| && SomeMade(servers, w, k, m)
    requires forall i :: 0 <= i < |w.sessions| ==>
      Made(servers, w.sessions[i], k, m) ==> Made(servers, w'.sessions[i], k, m)
    ensures SomeMade(servers, w', k, m)
  {
    var i :| 0 <= i < |w.sessions| && Made(servers, w.sessions[i], k, m);
    assert Made(servers, w'.sessions[i], k, m);
  }

  lemma StepSigned(servers: seq<Server>, w: World, step: Step)
    requires ValidServers(servers) && Inv(servers, w)
    ensures var w' := Next(servers, w, step);
      forall k, m :: (k, m) in w'.signed && AUTH_CONTEXT <= m ==> SomeMade(servers, w', k, m)
  {
    var w' := Next(servers, w, step);
    forall k, m | (k, m) in w'.signed && AUTH_CONTEXT <= m
      ensures SomeMade(servers, w', k, m)
    {
      if (k, m) in w.signed {
        MadeKept(servers, w, w', k, m);
      } else if step.Hello? {
        NameFits(step.origin);
        NameFits(servers[step.server].origin);
        assert Made(servers, w'.sessions[|w.sessions|], k, m);
      } else {
        NameFits(step.origin);
        NameFits(servers[w.sessions[step.session].server].origin);
        assert Made(servers, w'.sessions[step.session], k, m);
      }
    }
  }

  /** A step changes or adds at most one session, and leaves it well formed and shown what it needed. */
  lemma StepSession(servers: seq<Server>, w: World, step: Step, i: nat)
    requires ValidServers(servers) && Inv(servers, w) && i < |Next(servers, w, step).sessions|
    ensures var w' := Next(servers, w, step);
      SessionOk(servers, w'.sessions[i]) && Shown(servers, w', w'.sessions[i])
  {
    if Enabled(servers, w, step) && step.Hello? {
      NameFits(servers[step.server].origin);
      if ValidServerName(step.origin) {
        NameFits(step.origin);
      }
    } else if Enabled(servers, w, step) && step.HelloAck? {
      NameFits(servers[w.sessions[step.session].server].origin);
      if ValidServerName(step.origin) {
        NameFits(step.origin);
      }
    }
  }

  lemma StepInv(servers: seq<Server>, w: World, step: Step)
    requires ValidServers(servers) && Inv(servers, w)
    ensures Inv(servers, Next(servers, w, step))
  {
    var w' := Next(servers, w, step);
    StepSigned(servers, w, step);
    forall i | 0 <= i < |w'.sessions|
      ensures SessionOk(servers, w'.sessions[i]) && Shown(servers, w', w'.sessions[i])
    {
      StepSession(servers, w, step, i);
    }
  }

  lemma {:induction false} RunInv(servers: seq<Server>, steps: seq<Step>)
    requires ValidServers(servers)
    ensures Inv(servers, After(servers, steps))
  {
    if |steps| > 0 {
      RunInv(servers, steps[..|steps| - 1]);
      StepInv(servers, After(servers, steps[..|steps| - 1]), steps[|steps| - 1]);
    }
  }

  // ---- agreement -----------------------------------------------------------------------

  /** `x` has accepted its peer. */
  predicate Accepts(x: Session) {
    x.Proved? || (x.Answered? && x.stage.Admitted?)
  }

  function PeerKey(x: Session): Key
    requires Accepts(x)
  {
    if x.Proved? then x.terms.listenerKey else x.terms.dialerKey
  }

  /** `y` is the other end of `x`: opposite role, same keys, origins and nonces, run by the key `x` accepted. */
  predicate Partner(servers: seq<Server>, x: Session, y: Session)
    requires Accepts(x)
  {
    && y.server < |servers| && servers[y.server].key == PeerKey(x)
    && (if x.Proved? then y.Answered? else y.Proved?)
    && y.terms == x.terms
  }

  /** Session `i` has exactly one partner, and no other accepting session has that same partner. */
  predicate Matched(servers: seq<Server>, w: World, i: nat, j: nat) {
    && i < |w.sessions| && j < |w.sessions| && Accepts(w.sessions[i])
    && Partner(servers, w.sessions[i], w.sessions[j])
    && (forall k :: 0 <= k < |w.sessions| && Partner(servers, w.sessions[i], w.sessions[k]) ==> k == j)
    && (forall k ::
        0 <= k < |w.sessions| && Accepts(w.sessions[k]) && Partner(servers, w.sessions[k], w.sessions[j]) ==> k == i)
  }

  lemma SignableHasContext(t: Terms)
    requires Encodable(t)
    ensures AUTH_CONTEXT <= Signable(t)
  {
  }

  lemma PartnerExists(servers: seq<Server>, w: World, i: nat) returns (j: nat)
    requires Inv(servers, w) && i < |w.sessions| && Accepts(w.sessions[i])
    requires HonestKey(servers, PeerKey(w.sessions[i])) && servers[w.sessions[i].server].key != PeerKey(w.sessions[i])
    ensures j < |w.sessions| && Partner(servers, w.sessions[i], w.sessions[j])
  {
    var x := w.sessions[i];
    assert SessionOk(servers, x) && Shown(servers, w, x);
    SignableHasContext(x.terms);
    assert SomeMade(servers, w, PeerKey(x), Signable(x.terms));
    j :| 0 <= j < |w.sessions| && Made(servers, w.sessions[j], PeerKey(x), Signable(x.terms));
    SignableInjective(x.terms, w.sessions[j].terms);
  }

  lemma OneOfEachNonce(servers: seq<Server>, w: World, i: nat, j: nat)
    requires Inv(servers, w) && i < |w.sessions| && j < |w.sessions|
    requires OwnNonce(w.sessions[i]) == OwnNonce(w.sessions[j])
    ensures i == j
  {
  }

  /**
   Injective agreement. In every run, a session that accepts an honest burrow's
   key other than its own has exactly one session of that key's owner facing
   it, in the opposite role and over the same keys, origins and nonces, and
   that session faces no other acceptance.
   */
  lemma {:induction false} InjectiveAgreement(servers: seq<Server>, steps: seq<Step>, i: nat) returns (j: nat)
    requires ValidServers(servers) && i < |After(servers, steps).sessions| && Accepts(After(servers, steps).sessions[i])
    requires After(servers, steps).sessions[i].server < |servers|
    requires HonestKey(servers, PeerKey(After(servers, steps).sessions[i]))
    requires servers[After(servers, steps).sessions[i].server].key != PeerKey(After(servers, steps).sessions[i])
    ensures Matched(servers, After(servers, steps), i, j)
  {
    var w := After(servers, steps);
    RunInv(servers, steps);
    j := PartnerExists(servers, w, i);
    forall k | 0 <= k < |w.sessions| && Partner(servers, w.sessions[i], w.sessions[k])
      ensures k == j
    {
      OneOfEachNonce(servers, w, k, j);
    }
    forall k | 0 <= k < |w.sessions| && Accepts(w.sessions[k]) && Partner(servers, w.sessions[k], w.sessions[j])
      ensures k == i
    {
      OneOfEachNonce(servers, w, k, i);
    }
  }

  /** The origin an accepted honest peer is known under is the origin that peer has. */
  lemma {:induction false} AcceptedOriginIsTrue(servers: seq<Server>, steps: seq<Step>, i: nat) returns (j: nat)
    requires ValidServers(servers) && i < |After(servers, steps).sessions| && Accepts(After(servers, steps).sessions[i])
    requires After(servers, steps).sessions[i].server < |servers|
    requires HonestKey(servers, PeerKey(After(servers, steps).sessions[i]))
    requires servers[After(servers, steps).sessions[i].server].key != PeerKey(After(servers, steps).sessions[i])
    ensures var x := After(servers, steps).sessions[i];
      && j < |servers| && servers[j].key == PeerKey(x)
      && servers[j].origin == if x.Proved? then x.terms.listenerOrigin else x.terms.dialerOrigin
  {
    var k := InjectiveAgreement(servers, steps, i);
    RunInv(servers, steps);
    j := After(servers, steps).sessions[k].server;
  }

  // ---- an undisturbed handshake ---------------------------------------------------------

  /** The exchange when nobody interferes: hello, reply, proof. */
  function Exchange(servers: seq<Server>, d: nat, l: nat, dialerNonce: Nonce, listenerNonce: Nonce): (steps: seq<Step>)
    requires ValidServers(servers) && d < |servers| && l < |servers|
    ensures |steps| == 4
  {
    var t := Meeting(servers[d], servers[l], dialerNonce, listenerNonce);
    [Dial(d, dialerNonce, servers[l].origin, Some(servers[l].key)),
     Hello(l, FED_PROTOCOL, servers[d].key, servers[d].origin, dialerNonce, listenerNonce),
     HelloAck(0, FED_PROTOCOL, servers[l].key, servers[l].origin, listenerNonce, Sig(servers[l].key, Signable(t))),
     DialerProof(1, Sig(servers[d].key, Signable(t)))]
  }

  function Meeting(dialer: Server, listener: Server, dialerNonce: Nonce, listenerNonce: Nonce): (t: Terms)
    requires ValidServerName(dialer.origin) && ValidServerName(listener.origin)
    ensures Encodable(t)
  {
    NameFits(dialer.origin);
    NameFits(listener.origin);
    Terms(dialer.key, listener.key, dialer.origin, listener.origin, dialerNonce, listenerNonce)
  }

  lemma HelloAnswered(servers: seq<Server>, d: nat, l: nat, dialerNonce: Nonce, listenerNonce: Nonce)
    requires ValidServers(servers) && d < |servers| && l < |servers| && dialerNonce != listenerNonce
    requires servers[d].origin != servers[l].origin
    ensures var steps := Exchange(servers, d, l, dialerNonce, listenerNonce);
      var t := Meeting(servers[d], servers[l], dialerNonce, listenerNonce);
      var w := Next(servers, Next(servers, World([], {}), steps[0]), steps[1]);
      && w.sessions == [Dialing(d, dialerNonce, servers[l].origin, Some(servers[l].key)), Answered(l, t, Waiting)]
      && w.signed == {(servers[l].key, Signable(t))}
  {
    var steps := Exchange(servers, d, l, dialerNonce, listenerNonce);
    assert Next(servers, World([], {}), steps[0]).sessions
        == [Dialing(d, dialerNonce, servers[l].origin, Some(servers[l].key))];
  }

  lemma ProofAdmitted(servers: seq<Server>, d: nat, l: nat, dialerNonce: Nonce, listenerNonce: Nonce)
    requires ValidServers(servers) && d < |servers| && l < |servers| && dialerNonce != listenerNonce
    requires servers[d].origin != servers[l].origin
    ensures var steps := Exchange(servers, d, l, dialerNonce, listenerNonce);
      var t := Meeting(servers[d], servers[l], dialerNonce, listenerNonce);
      var w := World([Dialing(d, dialerNonce, servers[l].origin, Some(servers[l].key)), Answered(l, t, Waiting)],
                     {(servers[l].key, Signable(t))});
      Next(servers, Next(servers, w, steps[2]), steps[3]).sessions == [Proved(d, t), Answered(l, t, Admitted)]
  {
    var steps := Exchange(servers, d, l, dialerNonce, listenerNonce);
    var t := Meeting(servers[d], servers[l], dialerNonce, listenerNonce);
    var w := World([Dialing(d, dialerNonce, servers[l].origin, Some(servers[l].key)), Answered(l, t, Waiting)],
                   {(servers[l].key, Signable(t))});
    var mid := Next(servers, w, steps[2]);
    assert mid.sessions == [Proved(d, t), Answered(l, t, Waiting)];
    assert (servers[d].key, Signable(t)) in mid.signed;
  }

  lemma {:induction false} FourSteps(servers: seq<Server>, steps: seq<Step>)
    requires ValidServers(servers) && |steps| == 4
    ensures After(servers, steps)
         == Next(servers, Next(servers, Next(servers, Next(servers,
              World([], {}), steps[0]), steps[1]), steps[2]), steps[3])
  {
    TwoSteps(servers, steps[0], steps[1]);
    assert steps[..3][..2] == [steps[0], steps[1]];
    assert steps[..3][2] == steps[2];
  }

  /** Two burrows of different origins that are left alone accept each other, on the same terms. */
  lemma {:induction false} UndisturbedAccepts(servers: seq<Server>, d: nat, l: nat, dialerNonce: Nonce,
      listenerNonce: Nonce)
    requires ValidServers(servers) && d < |servers| && l < |servers| && dialerNonce != listenerNonce
    requires servers[d].origin != servers[l].origin
    ensures var t := Meeting(servers[d], servers[l], dialerNonce, listenerNonce);
      After(servers, Exchange(servers, d, l, dialerNonce, listenerNonce)).sessions
          == [Proved(d, t), Answered(l, t, Admitted)]
  {
    FourSteps(servers, Exchange(servers, d, l, dialerNonce, listenerNonce));
    HelloAnswered(servers, d, l, dialerNonce, listenerNonce);
    ProofAdmitted(servers, d, l, dialerNonce, listenerNonce);
    hide Next, Exchange;
  }

  // ---- the own key ---------------------------------------------------------------------

  /** A burrow answers a stranger that claims its own key and origin, and takes its own signature back as the proof. */
  function OwnTerms(me: Server, peerNonce: Nonce, nonce: Nonce): (t: Terms)
    requires ValidServerName(me.origin)
    ensures Encodable(t)
  {
    NameFits(me.origin);
    Terms(me.key, me.key, me.origin, me.origin, peerNonce, nonce)
  }

  function ClaimOwnKey(me: Server, s: nat, peerNonce: Nonce, nonce: Nonce): Step {
    Hello(s, FED_PROTOCOL, me.key, me.origin, peerNonce, nonce)
  }

  function ReflectProof(me: Server, peerNonce: Nonce, nonce: Nonce): Step
    requires ValidServerName(me.origin)
  {
    DialerProof(0, Sig(me.key, Signable(OwnTerms(me, peerNonce, nonce))))
  }

  lemma {:induction false} OneStep(servers: seq<Server>, step: Step)
    requires ValidServers(servers)
    ensures After(servers, [step]) == Next(servers, World([], {}), step)
  {
    assert [step][..0] == [];
  }

  lemma {:induction false} TwoSteps(servers: seq<Server>, a: Step, b: Step)
    requires ValidServers(servers)
    ensures After(servers, [a, b]) == Next(servers, Next(servers, World([], {}), a), b)
  {
    OneStep(servers, a);
    assert [a, b][..1] == [a];
  }

  lemma {:induction false} ReflectionIsAdmitted(servers: seq<Server>, s: nat, peerNonce: Nonce, nonce: Nonce)
    requires ValidServers(servers) && s < |servers|
    ensures var me := servers[s];
      After(servers, [ClaimOwnKey(me, s, peerNonce, nonce), ReflectProof(me, peerNonce, nonce)]).sessions
      == [Answered(s, OwnTerms(me, peerNonce, nonce), Admitted)]
  {
    var me := servers[s];
    var hello, proof := ClaimOwnKey(me, s, peerNonce, nonce), ReflectProof(me, peerNonce, nonce);
    TwoSteps(servers, hello, proof);
    assert Fresh(World([], {}), nonce);
    assert Next(servers, World([], {}), hello)
        == World([Answered(s, OwnTerms(me, peerNonce, nonce), Waiting)],
            {(me.key, Signable(OwnTerms(me, peerNonce, nonce)))});
  }

  /** Every acceptance by burrow `s` of the key of burrow `d` has a partner. */
  ghost predicate AlwaysMatched(servers: seq<Server>, s: nat, d: nat, steps: seq<Step>)
    requires ValidServers(servers) && d < |servers|
  {
    var w := After(servers, steps);
    forall i :: 0 <= i < |w.sessions| && w.sessions[i].server == s && Accepts(w.sessions[i])
                && PeerKey(w.sessions[i]) == servers[d].key
      ==> exists j :: Matched(servers, w, i, j)
  }

  /**
   The transcript names both roles' keys but not the signer's role, so
   agreement between two burrows holds in every run exactly when their keys
   differ.
   */
  lemma {:induction false} AgreementExactlyWhenKeysDiffer(servers: seq<Server>, s: nat, d: nat)
    requires ValidServers(servers) && s < |servers| && d < |servers|
    ensures (forall steps :: AlwaysMatched(servers, s, d, steps)) <==> servers[s].key != servers[d].key
  {
    if servers[s].key != servers[d].key {
      forall steps
        ensures AlwaysMatched(servers, s, d, steps)
      {
        var w := After(servers, steps);
        forall i | 0 <= i < |w.sessions| && w.sessions[i].server == s && Accepts(w.sessions[i])
                   && PeerKey(w.sessions[i]) == servers[d].key
          ensures exists j :: Matched(servers, w, i, j)
        {
          var j := InjectiveAgreement(servers, steps, i);
        }
      }
    } else {
      var a: Nonce := seq(32, i => 0);
      var steps := [ClaimOwnKey(servers[s], s, a, a), ReflectProof(servers[s], a, a)];
      ReflectionIsAdmitted(servers, s, a, a);
      assert !AlwaysMatched(servers, s, d, steps) by {
        var w := After(servers, steps);
        assert Accepts(w.sessions[0]) && PeerKey(w.sessions[0]) == servers[d].key;
        assert !exists j :: Matched(servers, w, 0, j);
      }
    }
  }
}
