/**
 What the transcripts of Handshake are transcripts of. A history of the wire runs beside the two programs: the messages a side has
 put on its outgoing queue and those it has taken off its incoming one. The network may be hostile: between any two steps it can
 replace whatever is on the way.
 */
module HandshakeWire {
  import opened Prelude
  import opened Handshake

  // ----- the wire -------------------------------------------------------------------------------

  datatype Event =
    | Go(a: Action)
    | Tamper(toServer: seq<Msg>, toClient: seq<Msg>)

  datatype Run = Run(state: State, clientLog: seq<Msg>, serverLog: seq<Msg>)

  function Start(): Run { Run(Init(), [], []) }

  /** What a queue that was `a` and is `b` has gained at its end, or lost at its front. */
  function Passed(a: seq<Msg>, b: seq<Msg>): seq<Msg> {
    if |a| <= |b| then b[|a|..] else a[..|a| - |b|]
  }

  function Seen(s: State, r: State): seq<Msg> {
    Passed(s.toServer, r.toServer) + Passed(s.toClient, r.toClient)
  }

  function Step(g: Config, run: Run, e: Event): Run {
    match e
    case Tamper(toServer, toClient) => run.(state := run.state.(toServer := toServer, toClient := toClient))
    case Go(a) =>
      var r := Do(g, run.state, a);
      if a.ClientStep? then Run(r, run.clientLog + Seen(run.state, r), run.serverLog)
      else Run(r, run.clientLog, run.serverLog + Seen(run.state, r))
  }

  function Play(g: Config, run: Run, es: seq<Event>): Run
    decreases |es|
  {
    if es == [] then run else Play(g, Step(g, run, es[0]), es[1..])
  }

  /** What is hashed of a log: everything but change-cipher-spec. */
  function Hashes(log: seq<Msg>): seq<Msg> {
    if log == [] then []
    else Hashes(log[..|log| - 1]) + if log[|log| - 1].ChangeCipher? then [] else [log[|log| - 1]]
  }

  lemma HashesMore(log: seq<Msg>, m: Msg)
    ensures Hashes(log + [m]) == Hashes(log) + if m.ChangeCipher? then [] else [m]
  {
    assert (log + [m])[..|log|] == log;
  }

  lemma {:induction false} InHashes(log: seq<Msg>, m: Msg)
    ensures m in Hashes(log) <==> m in log && !m.ChangeCipher?
  {
    if log != [] {
      InHashes(log[..|log| - 1], m);
      assert log == log[..|log| - 1] + [log[|log| - 1]];
    }
  }

  lemma {:induction false} HellosFirst(log: seq<Msg>)
    requires |log| >= 2 && !log[0].ChangeCipher? && !log[1].ChangeCipher?
    ensures |Hashes(log)| >= 2 && Hashes(log)[0] == log[0] && Hashes(log)[1] == log[1]
  {
    if |log| > 2 {
      HellosFirst(log[..|log| - 1]);
    } else {
      assert log == [log[0]] + [log[1]];
      HashesMore([], log[0]);
      HashesMore([log[0]], log[1]);
      assert [] + [log[0]] == [log[0]];
    }
  }

  lemma NoHashes()
    ensures Hashes([]) == []
  {
  }

  lemma FirstThree(log: seq<Msg>)
    requires |log| > 2 && !log[0].ChangeCipher? && !log[1].ChangeCipher? && !log[2].ChangeCipher?
    ensures Hashes(log)[..Min(3, |Hashes(log)|)] == log[..3]
  {
    hide Hashes;
    NoHashes();
    PrefixHashes(log, 3);
    HashesMore(log[..2], log[2]);
    assert log[..3] == log[..2] + [log[2]];
    HashesMore(log[..1], log[1]);
    assert log[..2] == log[..1] + [log[1]];
    HashesMore([], log[0]);
    assert log[..1] == [] + [log[0]];
  }

  lemma {:induction false} PrefixHashes(log: seq<Msg>, k: nat)
    requires k <= |log|
    ensures Hashes(log[..k]) <= Hashes(log)
  {
    if k < |log| {
      PrefixHashes(log[..|log| - 1], k);
      assert log[..|log| - 1][..k] == log[..k];
    } else {
      assert log[..k] == log;
    }
  }

  // ----- what a side's history says of it -------------------------------------------------------

  function Rank(pc: ClientPc): nat {
    match pc
    case CSendHello => 0
    case CAwaitHello => 1
    case CAwaitCert => 2
    case CAwaitSkx => 3
    case CAwaitReq => 4
    case CAwaitDone => 5
    case CSendCert => 6
    case CSendKx => 7
    case CSendVerify => 8
    case CSendCcs => 9
    case CSendNext => 10
    case CSendFin => 11
    case CAwaitTicket => 12
    case CAwaitCcs => 13
    case CAwaitFin => 14
    case CDone => 15
  }

  /** `x` is what was hashed up to the message at `k`. */
  predicate Before(log: seq<Msg>, k: int, x: Option<seq<Msg>>) {
    0 <= k < |log| && x == Some(Hashes(log[..k]))
  }

  predicate NoFinished(log: seq<Msg>) { forall j :: 0 <= j < |log| ==> !log[j].Finished? }

  predicate NoVerify(log: seq<Msg>) { forall j :: 0 <= j < |log| ==> !log[j].CertVerify? }

  /** The hellos, the server's chain and the master secret of a client. */
  predicate ClientKnows(k: Crypto, cc: ClientConfig, c: Client, log: seq<Msg>) {
    && c.transcript == Hashes(log)
    && (Rank(c.pc) <= 2 ==> |log| == Rank(c.pc)) && (Rank(c.pc) > 0 ==> log != [] && log[0] == cc.hello)
    && (Rank(c.pc) > 1 ==> |log| > 1 && GoodReply(cc.hello, log[1]) && c.suite == log[1].suite && c.ticket == log[1].ticket && c.npn == log[1].npn)
    && (Rank(c.pc) > 2 ==> |log| > 2 && log[2].Certificate? && |log[2].certs| >= 2 && cc.acceptServer(log[2].certs))
    && (Rank(c.pc) > 8 ==> c.master == k.master(cc.premaster, log[0], log[1]))
  }

  /** Its own chain: chosen for the server's request and sent, if there was a request. */
  ghost predicate ClientChain(cc: ClientConfig, c: Client, log: seq<Msg>) {
    && (Rank(c.pc) <= 4 || !c.requested ==> c.chain == []) && (Rank(c.pc) <= 4 ==> !c.requested) && (5 <= Rank(c.pc) <= 6 ==> c.requested)
    && (c.requested <==> Requested(log)) && (c.requested ==> ChosenFor(cc, log, c.chain))
    && (Rank(c.pc) > 6 && c.requested ==> Certificate(c.chain) in log)
  }

  ghost predicate Requested(log: seq<Msg>) { exists j :: 0 <= j < |log| && log[j].CertRequest? }

  ghost predicate ChosenFor(cc: ClientConfig, log: seq<Msg>, chain: seq<nat>) {
    exists j :: 0 <= j < |log| && log[j].CertRequest? && cc.choose(log[j].authorities) == Some(chain)
  }

  /** Its CertificateVerify: the first message of that kind, signed over all before it, the chain included. */
  ghost predicate ClientVerified(k: Crypto, c: Client, log: seq<Msg>) {
    && (Rank(c.pc) <= 8 ==> NoVerify(log) && c.verifyAt.None?)
    && (Rank(c.pc) == 8 ==> c.chain != []) && (Rank(c.pc) > 8 ==> (c.verifyAt.Some? <==> c.chain != []))
    && (c.verifyAt.Some? ==> SignedIn(k, log, c.verifyAt.value, c.chain))
  }

  predicate SignedAt(k: Crypto, log: seq<Msg>, j: int, x: seq<Msg>, chain: seq<nat>) {
    Before(log, j, Some(x)) && NoVerify(log[..j]) && log[j] == CertVerify(k.sign(x)) && Certificate(chain) in x
  }

  ghost predicate SignedIn(k: Crypto, log: seq<Msg>, x: seq<Msg>, chain: seq<nat>) { exists j :: SignedAt(k, log, j, x, chain) }

  ghost predicate CheckedIn(k: Crypto, log: seq<Msg>, x: seq<Msg>, chain: seq<nat>) { exists j :: CheckedAt(k, log, j, x, chain) }

  /** The Finished message of the client: the first one, and over the server's chain and the client's. */
  predicate FinishedAt(k: Crypto, log: seq<Msg>, j: int, master: nat, x: seq<Msg>, theirs: Msg, ours: Msg) {
    && j > 2 && Before(log, j, Some(x)) && NoFinished(log[..j]) && log[j] == Finished(k.verifyData(master, true, x)) && theirs in x && ours in x
  }

  ghost predicate FinishedIn(k: Crypto, log: seq<Msg>, master: nat, x: seq<Msg>, theirs: Msg, ours: Msg) {
    exists j :: FinishedAt(k, log, j, master, x, theirs, ours)
  }

  /** The Finished message of the server: the last message of all. */
  predicate EndsFinished(k: Crypto, log: seq<Msg>, master: nat, x: Option<seq<Msg>>) {
    Before(log, |log| - 1, x) && log[|log| - 1] == Finished(k.verifyData(master, false, x.value))
  }

  ghost predicate ClientFinished(k: Crypto, c: Client, log: seq<Msg>) {
    && (Rank(c.pc) <= 11 ==> NoFinished(log)) && (c.clientFinAt.Some? <==> Rank(c.pc) > 11) && (c.serverFinAt.Some? <==> c.pc.CDone?)
    && (c.clientFinAt.Some? ==>
          |log| > 2 && FinishedIn(k, log, c.master, c.clientFinAt.value, log[2], if c.requested then Certificate(c.chain) else log[2]))
    && (c.pc.CDone? ==> EndsFinished(k, log, c.master, c.serverFinAt))
  }

  ghost predicate ClientRecord(g: Config, c: Client, log: seq<Msg>) {
    ClientKnows(g.crypto, g.client, c, log) && ClientChain(g.client, c, log) && ClientVerified(g.crypto, c, log) && ClientFinished(g.crypto, c, log)
  }

  predicate KeyFrom(k: Crypto, m: Msg, master: nat, log: seq<Msg>) {
    && m.ClientKeyExchange? && k.unwrap(m.secret).Some? && |log| > 1 && master == k.master(k.unwrap(m.secret).value, log[0], log[1])
  }

  ghost predicate ServerKnows(k: Crypto, sc: ServerConfig, s: Server, log: seq<Msg>) {
    && s.transcript == Hashes(log)
    && (ServerPlace(s.pc) <= 2 ==> |log| == ServerPlace(s.pc)) && (ServerPlace(s.pc) > 0 ==> log != [] && Negotiate(sc, log[0]) == Some(s.terms))
    && (ServerPlace(s.pc) > 1 ==> |log| > 1 && log[1] == Reply(sc, s.terms))
    && (ServerPlace(s.pc) > 2 ==> |log| > 2 && log[2] == Certificate(sc.chain))
    && (ServerPlace(s.pc) > 8 ==> exists j :: 0 <= j < |log| && KeyFrom(k, log[j], s.master, log))
  }

  /** The client's chain as the server has it. */
  ghost predicate ServerChain(sc: ServerConfig, s: Server, log: seq<Msg>) {
    && (ServerPlace(s.pc) <= 7 || sc.auth.NoCert? ==> s.chain == []) && (s.pc.SAwaitCert? ==> !sc.auth.NoCert?)
    && (ServerPlace(s.pc) > 7 && !sc.auth.NoCert? ==>
          Certificate(s.chain) in log && !(s.chain == [] && Required(sc.auth)) && sc.accept(sc.auth, s.chain))
  }

  /** The client's CertificateVerify: the first message of that kind, a good signature of everything before it. */
  ghost predicate ServerVerified(k: Crypto, s: Server, log: seq<Msg>) {
    && (ServerPlace(s.pc) <= 9 ==> NoVerify(log) && s.verifyAt.None?)
    && (ServerPlace(s.pc) == 9 ==> s.chain != []) && (ServerPlace(s.pc) > 9 ==> (s.verifyAt.Some? <==> s.chain != []))
    && (s.verifyAt.Some? ==> CheckedIn(k, log, s.verifyAt.value, s.chain))
  }

  predicate CheckedAt(k: Crypto, log: seq<Msg>, j: int, x: seq<Msg>, chain: seq<nat>) {
    && Before(log, j, Some(x)) && NoVerify(log[..j]) && log[j].CertVerify? && k.check(chain, x, log[j].signature) && Certificate(chain) in x
  }

  ghost predicate ServerFinished(k: Crypto, sc: ServerConfig, s: Server, log: seq<Msg>) {
    && (ServerPlace(s.pc) <= 12 ==> NoFinished(log)) && (s.clientFinAt.Some? <==> ServerPlace(s.pc) > 12) && (s.serverFinAt.Some? <==> s.pc.SDone?)
    && (s.clientFinAt.Some? ==>
          FinishedIn(k, log, s.master, s.clientFinAt.value, Certificate(sc.chain), Certificate(if sc.auth.NoCert? then sc.chain else s.chain)))
    && (s.pc.SDone? ==> EndsFinished(k, log, s.master, s.serverFinAt))
  }

  ghost predicate ServerRecord(g: Config, s: Server, log: seq<Msg>) {
    ServerKnows(g.crypto, g.server, s, log) && ServerChain(g.server, s, log) && ServerVerified(g.crypto, s, log) && ServerFinished(g.crypto, g.server, s, log)
  }

  // ----- one message more -----------------------------------------------------------------------

  lemma Grown(log: seq<Msg>, m: Msg)
    ensures var l := log + [m];
            && |l| == |log| + 1 && l[|log|] == m && l[..|log|] == log && Hashes(l) == Hashes(log) + (if m.ChangeCipher? then [] else [m])
            && (forall j :: 0 <= j < |log| ==> l[j] == log[j])
  {
    HashesMore(log, m);
    hide Hashes;
  }

  /** A place in the log stays one. */
  lemma StillBefore(log: seq<Msg>, m: Msg, k: nat)
    requires k < |log|
    ensures (log + [m])[..k] == log[..k] && (log + [m])[k] == log[k]
  {
  }

  lemma ClientSentRank(k: Crypto, cc: ClientConfig, c: Client)
    requires ClientSends(c.pc)
    ensures var pc := ClientSent(c);
            && Rank(pc) > Rank(c.pc) && (Rank(c.pc) == 0 ==> Rank(pc) == 1) && (Rank(c.pc) == 0 || 6 <= Rank(c.pc) <= 11)
            && (pc.CSendCcs? <==> 0 < Rank(c.pc) <= 8 < Rank(pc))
    ensures Rank(c.pc) == 0 ==> ClientOut(k, cc, c) == cc.hello
  {
  }

  lemma ClientGotRank(k: Crypto, cc: ClientConfig, c: Client, m: Msg)
    requires ClientAwaits(c.pc) && ClientGot(k, cc, c, m).Some?
    ensures var pc := ClientGot(k, cc, c, m).value;
            && Rank(pc) > Rank(c.pc) && (0 < Rank(c.pc) <= 5 || Rank(c.pc) >= 12) && (Rank(c.pc) <= 5 ==> Rank(pc) <= 7)
            && (Rank(c.pc) <= 2 ==> Rank(pc) == Rank(c.pc) + 1)
    ensures Rank(c.pc) == 1 ==> GoodReply(cc.hello, m)
    ensures m.ServerHello? <==> Rank(c.pc) == 1
    ensures Rank(c.pc) == 2 ==> m.Certificate? && |m.certs| >= 2 && cc.acceptServer(m.certs)
  {
    hide Known;
  }

  lemma ClientKnowsSent(g: Config, c: Client, log: seq<Msg>)
    requires ClientSends(c.pc) && g.client.hello.ClientHello? && ClientKnows(g.crypto, g.client, c, log)
    ensures ClientKnows(g.crypto, g.client, ClientSend(g.crypto, g.client, c), log + [ClientOut(g.crypto, g.client, c)])
  {
    ClientSentRank(g.crypto, g.client, c);
    Grown(log, ClientOut(g.crypto, g.client, c));
    if Rank(c.pc) > 1 {
      assert log[1].ServerHello?;
      HellosFirst(log);
    }
    hide Hashes, ClientOut, ClientSent, Rank, GoodReply;
  }

  lemma ClientKnowsTaken(g: Config, c: Client, log: seq<Msg>, m: Msg)
    requires ClientAwaits(c.pc) && ClientGot(g.crypto, g.client, c, m).Some? && ClientKnows(g.crypto, g.client, c, log)
    ensures ClientKnows(g.crypto, g.client, ClientReceive(g.client, c, m, ClientGot(g.crypto, g.client, c, m).value), log + [m])
  {
    ClientGotRank(g.crypto, g.client, c, m);
    Grown(log, m);
    hide Hashes, ClientGot, ClientAwaits, Rank, GoodReply;
  }

  lemma ServerSentRank(k: Crypto, sc: ServerConfig, s: Server)
    requires ServerSends(s.pc)
    ensures var pc := ServerSent(sc, s);
            && ServerPlace(pc) > ServerPlace(s.pc) && (ServerPlace(s.pc) <= 1 ==> ServerPlace(pc) == ServerPlace(s.pc) + 1)
            && (ServerPlace(s.pc) <= 6 ==> ServerPlace(pc) <= 8) && (1 <= ServerPlace(s.pc) <= 6 || 13 <= ServerPlace(s.pc) <= 15)
    ensures ServerPlace(s.pc) == 1 ==> ServerOut(k, sc, s) == Reply(sc, s.terms)
    ensures ServerPlace(s.pc) == 2 ==> ServerOut(k, sc, s) == Certificate(sc.chain)
  {
    hide Reply;
  }

  lemma ServerGotRank(k: Crypto, sc: ServerConfig, s: Server, m: Msg)
    requires ServerAwaits(s.pc) && ServerGot(k, sc, s, m).Some?
    ensures var pc := ServerGot(k, sc, s, m).value;
            && ServerPlace(pc) > ServerPlace(s.pc) && (ServerPlace(s.pc) == 0 || 7 <= ServerPlace(s.pc) <= 12) && (ServerPlace(s.pc) == 0 ==> ServerPlace(pc) == 1)
            && (ServerPlace(s.pc) <= 7 ==> ServerPlace(pc) <= 8)
    ensures (ServerPlace(s.pc) == 0 ==> Negotiate(sc, m).Some? && m.ClientHello?) && (ServerPlace(s.pc) > 0 ==> !m.ClientHello?)
    ensures m.ClientKeyExchange? <==> ServerPlace(s.pc) == 8
    ensures m.ClientKeyExchange? ==> k.unwrap(m.secret).Some?
  {
    assert Negotiate(sc, m).Some? ==> m.ClientHello?;
    hide Negotiate;
  }

  lemma ServerKnowsSent(g: Config, s: Server, log: seq<Msg>)
    requires ServerSends(s.pc) && ServerKnows(g.crypto, g.server, s, log)
    ensures ServerKnows(g.crypto, g.server, ServerSend(g.crypto, g.server, s), log + [ServerOut(g.crypto, g.server, s)])
  {
    ServerSentRank(g.crypto, g.server, s);
    Grown(log, ServerOut(g.crypto, g.server, s));
    hide Hashes, ServerOut, ServerSent, ServerPlace, Negotiate, Reply, KeyFrom;
    if ServerPlace(s.pc) > 8 { KeyStill(g.crypto, s.master, log, ServerOut(g.crypto, g.server, s)); }
  }

  lemma KeyStill(k: Crypto, master: nat, log: seq<Msg>, m: Msg)
    requires exists j :: 0 <= j < |log| && KeyFrom(k, log[j], master, log)
    ensures exists j :: 0 <= j < |log + [m]| && KeyFrom(k, (log + [m])[j], master, log + [m])
  {
    var j :| 0 <= j < |log| && KeyFrom(k, log[j], master, log);
    assert (log + [m])[j] == log[j] && KeyFrom(k, (log + [m])[j], master, log + [m]);
  }

  lemma ServerKnowsTaken(g: Config, s: Server, log: seq<Msg>, m: Msg)
    requires ServerAwaits(s.pc) && ServerGot(g.crypto, g.server, s, m).Some? && ServerKnows(g.crypto, g.server, s, log)
    ensures ServerKnows(g.crypto, g.server, ServerReceive(g.crypto, g.server, s, m, ServerGot(g.crypto, g.server, s, m).value), log + [m])
  {
    ServerGotRank(g.crypto, g.server, s, m);
    Grown(log, m);
    hide ServerGot, ServerAwaits, ServerPlace, Negotiate;
    if ServerPlace(s.pc) == 8 {
      HellosFirst(log);
      hide Hashes;
      var r := ServerReceive(g.crypto, g.server, s, m, ServerGot(g.crypto, g.server, s, m).value);
      assert KeyFrom(g.crypto, (log + [m])[|log|], r.master, log + [m]);
    } else if ServerPlace(s.pc) > 8 {
      hide Hashes;
      KeyStill(g.crypto, s.master, log, m);
    } else { hide Hashes; }
  }

  // ----- the client's CertificateVerify and the Finished messages --------------------------------

  lemma ClientOutKinds(k: Crypto, cc: ClientConfig, c: Client)
    requires ClientSends(c.pc) && cc.hello.ClientHello?
    ensures var m := ClientOut(k, cc, c);
            && !m.CertRequest? && (m.CertVerify? <==> Rank(c.pc) == 8) && (m.Finished? <==> Rank(c.pc) == 11)
            && (Rank(c.pc) == 6 ==> m == Certificate(c.chain))
            && (Rank(c.pc) == 8 ==> m == CertVerify(k.sign(c.transcript))) && (Rank(c.pc) == 11 ==> m == Finished(k.verifyData(c.master, true, c.transcript)))
    ensures var pc := ClientSent(c);
            && (c.pc.CSendVerify? <==> Rank(c.pc) == 8) && (c.pc.CSendFin? <==> Rank(c.pc) == 11) && (Rank(c.pc) <= 11 < Rank(pc) <==> Rank(c.pc) == 11)
            && (Rank(c.pc) <= 8 < Rank(pc) ==> Rank(c.pc) == 8 || (Rank(c.pc) == 7 && c.chain == [])) && !pc.CDone?
            && (Rank(c.pc) == 7 && Rank(pc) == 8 ==> c.chain != []) && (Rank(c.pc) <= 6 < Rank(pc) <==> Rank(c.pc) == 6)
  {
  }

  lemma ClientGotKinds(k: Crypto, cc: ClientConfig, c: Client, m: Msg)
    requires ClientAwaits(c.pc) && ClientGot(k, cc, c, m).Some?
    ensures !m.CertVerify? && (m.Finished? <==> Rank(c.pc) == 14) && (m.CertRequest? ==> 3 <= Rank(c.pc) <= 4 && cc.choose(m.authorities).Some?)
    ensures var pc := ClientGot(k, cc, c, m).value;
            && (c.pc.CAwaitFin? <==> Rank(c.pc) == 14) && (pc.CDone? <==> Rank(c.pc) == 14) && (m.CertRequest? ==> Rank(pc) == 5)
            && (Rank(c.pc) <= 4 && !m.CertRequest? ==> Rank(pc) != 6 && Rank(pc) != 5) && (Rank(c.pc) == 5 && c.requested ==> Rank(pc) == 6)
            && (Rank(pc) > 8 ==> Rank(c.pc) > 11) && Rank(pc) != 8
    ensures Rank(c.pc) == 14 ==> m == Finished(k.verifyData(c.master, false, c.transcript))
  {
    hide Known;
  }

  lemma RequestsMore(cc: ClientConfig, log: seq<Msg>, m: Msg, chain: seq<nat>)
    ensures Requested(log + [m]) <==> Requested(log) || m.CertRequest?
    ensures ChosenFor(cc, log, chain) || (m.CertRequest? && cc.choose(m.authorities) == Some(chain)) ==> ChosenFor(cc, log + [m], chain)
  {
    var l := log + [m];
    assert l[|log|] == m && forall j :: 0 <= j < |log| ==> l[j] == log[j];
  }

  lemma ClientChainSent(g: Config, c: Client, log: seq<Msg>)
    requires ClientSends(c.pc) && g.client.hello.ClientHello? && ClientChain(g.client, c, log)
    ensures ClientChain(g.client, ClientSend(g.crypto, g.client, c), log + [ClientOut(g.crypto, g.client, c)])
  {
    var m := ClientOut(g.crypto, g.client, c);
    ClientSentRank(g.crypto, g.client, c);
    ClientOutKinds(g.crypto, g.client, c);
    RequestsMore(g.client, log, m, c.chain);
    assert forall x :: x in log + [m] <==> x in log || x == m;
    hide Hashes, Hashed, ClientOut, ClientSent, Rank, ClientSends, Requested, ChosenFor;
  }

  lemma ClientChainTaken(g: Config, c: Client, log: seq<Msg>, m: Msg)
    requires ClientAwaits(c.pc) && ClientGot(g.crypto, g.client, c, m).Some? && ClientChain(g.client, c, log)
    ensures ClientChain(g.client, ClientReceive(g.client, c, m, ClientGot(g.crypto, g.client, c, m).value), log + [m])
  {
    ClientGotRank(g.crypto, g.client, c, m);
    ClientGotKinds(g.crypto, g.client, c, m);
    var r := ClientReceive(g.client, c, m, ClientGot(g.crypto, g.client, c, m).value);
    RequestsMore(g.client, log, m, r.chain);
    assert forall x :: x in log + [m] <==> x in log || x == m;
    hide Hashes, Hashed, ClientGot, Rank, ClientAwaits, Requested, ChosenFor;
  }

  lemma NoneMore(log: seq<Msg>, m: Msg)
    ensures NoVerify(log + [m]) <==> NoVerify(log) && !m.CertVerify?
    ensures NoFinished(log + [m]) <==> NoFinished(log) && !m.Finished?
  {
    var l := log + [m];
    assert l[|log|] == m && forall j :: 0 <= j < |log| ==> l[j] == log[j];
  }

  lemma SignedMore(k: Crypto, log: seq<Msg>, m: Msg, x: seq<Msg>, chain: seq<nat>)
    ensures SignedIn(k, log, x, chain) ==> SignedIn(k, log + [m], x, chain)
    ensures CheckedIn(k, log, x, chain) ==> CheckedIn(k, log + [m], x, chain)
    ensures x == Hashes(log) && NoVerify(log) && Certificate(chain) in log && m == CertVerify(k.sign(x)) ==> SignedIn(k, log + [m], x, chain)
    ensures x == Hashes(log) && NoVerify(log) && Certificate(chain) in log && m.CertVerify? && k.check(chain, x, m.signature) ==>
              CheckedIn(k, log + [m], x, chain)
  {
    InHashes(log, Certificate(chain));
    var l := log + [m];
    assert l[..|log|] == log && l[|log|] == m;
    hide Hashes, NoVerify;
    if j :| SignedAt(k, log, j, x, chain) {
      StillBefore(log, m, j);
      assert SignedAt(k, l, j, x, chain);
    }
    if j :| CheckedAt(k, log, j, x, chain) {
      StillBefore(log, m, j);
      assert CheckedAt(k, l, j, x, chain);
    }
    assert (x == Hashes(log) && NoVerify(log) && Certificate(chain) in Hashes(log)) ==>
        (m == CertVerify(k.sign(x)) ==> SignedAt(k, l, |log|, x, chain))
        && (m.CertVerify? && k.check(chain, x, m.signature) ==> CheckedAt(k, l, |log|, x, chain));
  }

  lemma FinishedMore(k: Crypto, log: seq<Msg>, m: Msg, master: nat, x: seq<Msg>, theirs: Msg, ours: Msg)
    ensures FinishedIn(k, log, master, x, theirs, ours) ==> FinishedIn(k, log + [m], master, x, theirs, ours)
    ensures (|log| > 2 && x == Hashes(log) && NoFinished(log) && theirs.Certificate? && ours.Certificate? && theirs in log && ours in log
             && m == Finished(k.verifyData(master, true, x))) ==> FinishedIn(k, log + [m], master, x, theirs, ours)
    ensures x == Hashes(log) && m == Finished(k.verifyData(master, false, x)) ==> EndsFinished(k, log + [m], master, Some(x))
  {
    InHashes(log, theirs);
    InHashes(log, ours);
    var l := log + [m];
    assert l[..|log|] == log && l[|log|] == m;
    hide Hashes, NoFinished;
    if j :| FinishedAt(k, log, j, master, x, theirs, ours) {
      StillBefore(log, m, j);
      assert FinishedAt(k, l, j, master, x, theirs, ours);
    }
    assert (|log| > 2 && x == Hashes(log) && NoFinished(log) && theirs in Hashes(log) && ours in Hashes(log) && m == Finished(k.verifyData(master, true, x))) ==>
        FinishedAt(k, l, |log|, master, x, theirs, ours);
  }

  lemma ClientVerifiedSent(g: Config, c: Client, log: seq<Msg>)
    requires ClientSends(c.pc) && g.client.hello.ClientHello? && ClientVerified(g.crypto, c, log)
    requires c.transcript == Hashes(log) && ClientChain(g.client, c, log)
    ensures ClientVerified(g.crypto, ClientSend(g.crypto, g.client, c), log + [ClientOut(g.crypto, g.client, c)])
  {
    var m := ClientOut(g.crypto, g.client, c);
    ClientSentRank(g.crypto, g.client, c);
    ClientOutKinds(g.crypto, g.client, c);
    SignedMore(g.crypto, log, m, if c.verifyAt.Some? then c.verifyAt.value else c.transcript, c.chain);
    NoneMore(log, m);
    hide Hashes, Hashed, ClientOut, ClientSent, Rank, ClientSends, Requested, ChosenFor, SignedIn, CheckedIn, NoVerify;
  }

  lemma ClientVerifiedTaken(g: Config, c: Client, log: seq<Msg>, m: Msg)
    requires ClientAwaits(c.pc) && ClientGot(g.crypto, g.client, c, m).Some? && ClientVerified(g.crypto, c, log)
    ensures ClientVerified(g.crypto, ClientReceive(g.client, c, m, ClientGot(g.crypto, g.client, c, m).value), log + [m])
  {
    ClientGotRank(g.crypto, g.client, c, m);
    ClientGotKinds(g.crypto, g.client, c, m);
    if c.verifyAt.Some? { SignedMore(g.crypto, log, m, c.verifyAt.value, c.chain); }
    NoneMore(log, m);
    hide Hashes, Hashed, ClientGot, Rank, ClientAwaits, SignedIn, CheckedIn, NoVerify;
  }

  lemma ClientFinishedSent(g: Config, c: Client, log: seq<Msg>)
    requires ClientSends(c.pc) && g.client.hello.ClientHello? && ClientFinished(g.crypto, c, log)
    requires ClientKnows(g.crypto, g.client, c, log) && ClientChain(g.client, c, log)
    ensures ClientFinished(g.crypto, ClientSend(g.crypto, g.client, c), log + [ClientOut(g.crypto, g.client, c)])
  {
    var m := ClientOut(g.crypto, g.client, c);
    ClientSentRank(g.crypto, g.client, c);
    ClientOutKinds(g.crypto, g.client, c);
    if Rank(c.pc) == 11 {
      FinishedMore(g.crypto, log, m, c.master, c.transcript, log[2], if c.requested then Certificate(c.chain) else log[2]);
      assert (log + [m])[2] == log[2];
    }
    NoneMore(log, m);
    hide Hashes, Hashed, ClientOut, ClientSent, Rank, ClientSends, Requested, ChosenFor, FinishedIn, EndsFinished, NoFinished, GoodReply;
  }

  lemma ClientFinishedTaken(g: Config, c: Client, log: seq<Msg>, m: Msg)
    requires ClientAwaits(c.pc) && ClientGot(g.crypto, g.client, c, m).Some? && ClientFinished(g.crypto, c, log)
    requires c.transcript == Hashes(log)
    ensures ClientFinished(g.crypto, ClientReceive(g.client, c, m, ClientGot(g.crypto, g.client, c, m).value), log + [m])
  {
    ClientGotRank(g.crypto, g.client, c, m);
    ClientGotKinds(g.crypto, g.client, c, m);
    if c.clientFinAt.Some? {
      FinishedMore(g.crypto, log, m, c.master, c.clientFinAt.value, log[2], if c.requested then Certificate(c.chain) else log[2]);
      assert (log + [m])[2] == log[2];
    }
    FinishedMore(g.crypto, log, m, c.master, c.transcript, m, m);
    NoneMore(log, m);
    hide Hashes, Hashed, ClientGot, Rank, ClientAwaits, FinishedIn, EndsFinished, NoFinished;
  }

  lemma ServerOutKinds(k: Crypto, sc: ServerConfig, s: Server)
    requires ServerSends(s.pc)
    ensures var m := ServerOut(k, sc, s);
            !m.CertVerify? && (m.Finished? <==> ServerPlace(s.pc) == 15) && (ServerPlace(s.pc) == 15 ==> m == Finished(k.verifyData(s.master, false, s.transcript)))
    ensures var i, r := ServerPlace(s.pc), ServerPlace(ServerSent(sc, s));
            && (s.pc.SSendFin? <==> i == 15) && (ServerSent(sc, s).SDone? <==> i == 15) && (i <= 6 || i >= 13) && r != 9 && (r > 9 ==> i >= 13)
            && (ServerSent(sc, s).SAwaitCert? ==> !sc.auth.NoCert?) && (i <= 6 && r > 7 ==> sc.auth.NoCert?)
  {
  }

  lemma ServerGotKinds(k: Crypto, sc: ServerConfig, s: Server, m: Msg)
    requires ServerAwaits(s.pc) && ServerGot(k, sc, s, m).Some?
    ensures var i, pc := ServerPlace(s.pc), ServerGot(k, sc, s, m).value;
            && (m.CertVerify? <==> i == 9) && (m.Finished? <==> i == 12) && (m.Certificate? <==> i == 7)
            && (s.pc.SAwaitFin? <==> i == 12) && (s.pc.SAwaitVerify? <==> i == 9) && (s.pc.SAwaitCert? <==> i == 7)
            && (i == 0 ==> ServerPlace(pc) == 1) && (i == 7 ==> ServerPlace(pc) == 8) && (i == 8 ==> ServerPlace(pc) == if s.chain != [] then 9 else 10)
            && (ServerPlace(pc) > 12 <==> i == 12) && (i > 8 ==> ServerPlace(pc) > 9) && !pc.SDone? && !pc.SAwaitCert?
            && (i == 7 ==> !(m.certs == [] && Required(sc.auth)) && sc.accept(sc.auth, m.certs))
            && (i == 9 ==> k.check(s.chain, s.transcript, m.signature)) && (i == 12 ==> m == Finished(k.verifyData(s.master, true, s.transcript)))
  {
    assert Negotiate(sc, m).Some? ==> m.ClientHello?;
    hide Negotiate;
  }

  lemma ServerChainSent(g: Config, s: Server, log: seq<Msg>)
    requires ServerSends(s.pc) && ServerChain(g.server, s, log)
    ensures ServerChain(g.server, ServerSend(g.crypto, g.server, s), log + [ServerOut(g.crypto, g.server, s)])
  {
    var m := ServerOut(g.crypto, g.server, s);
    ServerSentRank(g.crypto, g.server, s);
    ServerOutKinds(g.crypto, g.server, s);
    assert forall x :: x in log + [m] <==> x in log || x == m;
    hide Hashes, Hashed, ServerOut, ServerSent, ServerPlace, ServerSends, Required;
  }

  lemma ServerChainTaken(g: Config, s: Server, log: seq<Msg>, m: Msg)
    requires ServerAwaits(s.pc) && ServerGot(g.crypto, g.server, s, m).Some? && ServerChain(g.server, s, log)
    ensures ServerChain(g.server, ServerReceive(g.crypto, g.server, s, m, ServerGot(g.crypto, g.server, s, m).value), log + [m])
  {
    ServerGotRank(g.crypto, g.server, s, m);
    ServerGotKinds(g.crypto, g.server, s, m);
    assert forall x :: x in log + [m] <==> x in log || x == m;
    hide Hashes, Hashed, ServerGot, ServerPlace, ServerAwaits, Required, Negotiate;
  }

  lemma ServerVerifiedSent(g: Config, s: Server, log: seq<Msg>)
    requires ServerSends(s.pc) && ServerVerified(g.crypto, s, log)
    ensures ServerVerified(g.crypto, ServerSend(g.crypto, g.server, s), log + [ServerOut(g.crypto, g.server, s)])
  {
    var m := ServerOut(g.crypto, g.server, s);
    ServerSentRank(g.crypto, g.server, s);
    ServerOutKinds(g.crypto, g.server, s);
    if s.verifyAt.Some? { SignedMore(g.crypto, log, m, s.verifyAt.value, s.chain); }
    NoneMore(log, m);
    hide Hashes, Hashed, ServerOut, ServerSent, ServerPlace, ServerSends, SignedIn, CheckedIn, NoVerify;
  }

  lemma ServerVerifiedTaken(g: Config, s: Server, log: seq<Msg>, m: Msg)
    requires ServerAwaits(s.pc) && ServerGot(g.crypto, g.server, s, m).Some? && ServerVerified(g.crypto, s, log)
    requires s.transcript == Hashes(log) && ServerChain(g.server, s, log)
    ensures ServerVerified(g.crypto, ServerReceive(g.crypto, g.server, s, m, ServerGot(g.crypto, g.server, s, m).value), log + [m])
  {
    ServerGotRank(g.crypto, g.server, s, m);
    ServerGotKinds(g.crypto, g.server, s, m);
    SignedMore(g.crypto, log, m, if s.verifyAt.Some? then s.verifyAt.value else s.transcript, s.chain);
    NoneMore(log, m);
    hide Hashes, Hashed, ServerGot, ServerPlace, ServerAwaits, SignedIn, CheckedIn, NoVerify, Negotiate;
  }

  lemma ServerFinishedSent(g: Config, s: Server, log: seq<Msg>)
    requires ServerSends(s.pc) && ServerFinished(g.crypto, g.server, s, log) && s.transcript == Hashes(log)
    ensures ServerFinished(g.crypto, g.server, ServerSend(g.crypto, g.server, s), log + [ServerOut(g.crypto, g.server, s)])
  {
    var m := ServerOut(g.crypto, g.server, s);
    ServerSentRank(g.crypto, g.server, s);
    ServerOutKinds(g.crypto, g.server, s);
    if s.clientFinAt.Some? {
      FinishedMore(g.crypto, log, m, s.master, s.clientFinAt.value, Certificate(g.server.chain),
                   Certificate(if g.server.auth.NoCert? then g.server.chain else s.chain));
    }
    FinishedMore(g.crypto, log, m, s.master, s.transcript, m, m);
    NoneMore(log, m);
    hide Hashes, Hashed, ServerOut, ServerSent, ServerPlace, ServerSends, FinishedIn, EndsFinished, NoFinished;
  }

  lemma ServerFinishedTaken(g: Config, s: Server, log: seq<Msg>, m: Msg)
    requires ServerAwaits(s.pc) && ServerGot(g.crypto, g.server, s, m).Some? && ServerFinished(g.crypto, g.server, s, log)
    requires ServerKnows(g.crypto, g.server, s, log) && ServerChain(g.server, s, log)
    ensures ServerFinished(g.crypto, g.server, ServerReceive(g.crypto, g.server, s, m, ServerGot(g.crypto, g.server, s, m).value), log + [m])
  {
    ServerGotRank(g.crypto, g.server, s, m);
    ServerGotKinds(g.crypto, g.server, s, m);
    hide ServerGot, ServerPlace, ServerAwaits, Negotiate;
    if ServerPlace(s.pc) == 12 {
      assert Certificate(g.server.chain) == log[2] && log[2] in log;
      FinishedMore(g.crypto, log, m, s.master, s.transcript, Certificate(g.server.chain),
                   Certificate(if g.server.auth.NoCert? then g.server.chain else s.chain));
    }
    NoneMore(log, m);
    hide Hashes, Hashed, FinishedIn, EndsFinished, NoFinished, KeyFrom, Reply, Required;
  }

  // ----- whole runs -----------------------------------------------------------------------------

  lemma ClientRecordSent(g: Config, c: Client, log: seq<Msg>)
    requires ClientSends(c.pc) && g.client.hello.ClientHello? && ClientRecord(g, c, log)
    ensures ClientRecord(g, ClientSend(g.crypto, g.client, c), log + [ClientOut(g.crypto, g.client, c)])
  {
    assert c.transcript == Hashes(log) by { hide Hashes, GoodReply; }
    hide ClientKnows, ClientChain, ClientVerified, ClientFinished, ClientSends, Hashes, ClientSend, ClientOut;
    ClientKnowsSent(g, c, log);
    ClientChainSent(g, c, log);
    ClientVerifiedSent(g, c, log);
    ClientFinishedSent(g, c, log);
  }

  lemma ClientRecordTaken(g: Config, c: Client, log: seq<Msg>, m: Msg)
    requires ClientAwaits(c.pc) && ClientGot(g.crypto, g.client, c, m).Some? && ClientRecord(g, c, log)
    ensures ClientRecord(g, ClientReceive(g.client, c, m, ClientGot(g.crypto, g.client, c, m).value), log + [m])
  {
    assert c.transcript == Hashes(log) by { hide Hashes, GoodReply; }
    hide ClientKnows, ClientChain, ClientVerified, ClientFinished, ClientAwaits, Hashes, ClientReceive, ClientGot;
    ClientKnowsTaken(g, c, log, m);
    ClientChainTaken(g, c, log, m);
    ClientVerifiedTaken(g, c, log, m);
    ClientFinishedTaken(g, c, log, m);
  }

  lemma ServerRecordSent(g: Config, s: Server, log: seq<Msg>)
    requires ServerSends(s.pc) && ServerRecord(g, s, log)
    ensures ServerRecord(g, ServerSend(g.crypto, g.server, s), log + [ServerOut(g.crypto, g.server, s)])
  {
    assert s.transcript == Hashes(log) by { hide Hashes, Negotiate; }
    hide ServerKnows, ServerChain, ServerVerified, ServerFinished, ServerSends, Hashes, ServerSend, ServerOut;
    ServerKnowsSent(g, s, log);
    ServerChainSent(g, s, log);
    ServerVerifiedSent(g, s, log);
    ServerFinishedSent(g, s, log);
  }

  lemma ServerRecordTaken(g: Config, s: Server, log: seq<Msg>, m: Msg)
    requires ServerAwaits(s.pc) && ServerGot(g.crypto, g.server, s, m).Some? && ServerRecord(g, s, log)
    ensures ServerRecord(g, ServerReceive(g.crypto, g.server, s, m, ServerGot(g.crypto, g.server, s, m).value), log + [m])
  {
    assert s.transcript == Hashes(log) by { hide Hashes, Negotiate; }
    hide ServerKnows, ServerChain, ServerVerified, ServerFinished, ServerAwaits, Hashes, ServerReceive, ServerGot;
    ServerKnowsTaken(g, s, log, m);
    ServerChainTaken(g, s, log, m);
    ServerVerifiedTaken(g, s, log, m);
    ServerFinishedTaken(g, s, log, m);
  }

  /** Giving up leaves no mark. */
  lemma FailedRecord(g: Config, c: Client, s: Server, log: seq<Msg>)
    ensures ClientRecord(g, c, log) ==> ClientRecord(g, c.(failed := true), log)
    ensures ServerRecord(g, s, log) ==> ServerRecord(g, s.(failed := true), log)
  {
    hide Hashes, Negotiate, GoodReply, SignedIn, CheckedIn, FinishedIn, EndsFinished, NoFinished, NoVerify, Requested, ChosenFor, KeyFrom, Rank, ServerPlace;
  }

  ghost predicate Records(g: Config, run: Run) {
    ClientRecord(g, run.state.client, run.clientLog) && ServerRecord(g, run.state.server, run.serverLog)
  }

  lemma ClientStepRecord(g: Config, s: State, log: seq<Msg>)
    requires g.client.hello.ClientHello? && ClientRecord(g, s.client, log)
    ensures var r := DoClient(g, s); ClientRecord(g, r.client, log + Seen(s, r)) && r.server == s.server
  {
    hide ClientRecord, ClientOut, ClientSend, ClientGot, ClientReceive, ClientSends, ClientAwaits;
    var c := s.client;
    assert log + ([] + []) == log;
    if !c.failed && ClientSends(c.pc) {
      ClientRecordSent(g, c, log);
      assert Seen(s, DoClient(g, s)) == [ClientOut(g.crypto, g.client, c)];
    } else if !c.failed && ClientAwaits(c.pc) && s.toClient != [] {
      FailedRecord(g, c, s.server, log);
      if ClientGot(g.crypto, g.client, c, s.toClient[0]).Some? {
        ClientRecordTaken(g, c, log, s.toClient[0]);
        assert Seen(s, DoClient(g, s)) == [s.toClient[0]];
      } else {
        assert Seen(s, DoClient(g, s)) == [];
      }
    } else {
      assert Seen(s, s) == [];
    }
  }

  lemma ServerStepRecord(g: Config, s: State, log: seq<Msg>)
    requires ServerRecord(g, s.server, log)
    ensures var r := DoServer(g, s); ServerRecord(g, r.server, log + Seen(s, r)) && r.client == s.client
  {
    hide ServerRecord, ServerOut, ServerSend, ServerGot, ServerReceive, ServerSends, ServerAwaits;
    var c := s.server;
    assert log + ([] + []) == log;
    if !c.failed && ServerSends(c.pc) {
      ServerRecordSent(g, c, log);
      assert Seen(s, DoServer(g, s)) == [ServerOut(g.crypto, g.server, c)];
    } else if !c.failed && ServerAwaits(c.pc) && s.toServer != [] {
      FailedRecord(g, s.client, c, log);
      if ServerGot(g.crypto, g.server, c, s.toServer[0]).Some? {
        ServerRecordTaken(g, c, log, s.toServer[0]);
        assert Seen(s, DoServer(g, s)) == [s.toServer[0]];
      } else {
        assert Seen(s, DoServer(g, s)) == [];
      }
    } else {
      assert Seen(s, s) == [];
    }
  }

  lemma StepRecords(g: Config, run: Run, e: Event)
    requires g.client.hello.ClientHello? && Records(g, run)
    ensures Records(g, Step(g, run, e))
  {
    hide ClientRecord, ServerRecord, DoClient, DoServer, Seen;
    if e.Go? {
      if e.a.ClientStep? { ClientStepRecord(g, run.state, run.clientLog); } else { ServerStepRecord(g, run.state, run.serverLog); }
    }
  }

  lemma {:induction false} PlayRecords(g: Config, run: Run, es: seq<Event>)
    requires g.client.hello.ClientHello? && Records(g, run)
    ensures Records(g, Play(g, run, es))
    decreases |es|
  {
    if es != [] {
      hide Records, Step;
      StepRecords(g, run, es[0]);
      PlayRecords(g, Step(g, run, es[0]), es[1..]);
    }
  }

  /** On a network that does what it likes, a side's own history says what its transcript is, over what its signature and its Finished
      message were made, and which tests of the other's messages it has passed. */
  lemma HistoryDecides(g: Config, es: seq<Event>)
    requires g.client.hello.ClientHello?
    ensures Records(g, Play(g, Start(), es))
  {
    assert Records(g, Start());
    hide Records;
    PlayRecords(g, Start(), es);
  }

  // ----- what the Finished messages are for -----------------------------------------------------

  /** Equal values only for equal secrets and equal transcripts. */
  ghost predicate Binding(k: Crypto) {
    forall a: nat, b: nat, w: bool, t: seq<Msg>, u: seq<Msg> :: k.verifyData(a, w, t) == k.verifyData(b, w, u) ==> a == b && t == u
  }

  /** Whatever the network did: if both have finished, and the last message the client took is the last one the server sent, they have
      the same secret and the same transcript. So the server has negotiated with the hello the client sent, the client has the
      server's own reply, and no chain was exchanged for another. */
  lemma ClientIsSure(g: Config, es: seq<Event>)
    requires g.client.hello.ClientHello? && Binding(g.crypto)
    requires var r := Play(g, Start(), es);
             && r.state.client.pc.CDone? && r.state.server.pc.SDone?
             && r.clientLog != [] && r.serverLog != [] && r.clientLog[|r.clientLog| - 1] == r.serverLog[|r.serverLog| - 1]
    ensures var r := Play(g, Start(), es); var c, s := r.state.client, r.state.server;
            && c.master == s.master && c.serverFinAt == s.serverFinAt && Hashes(r.clientLog) == Hashes(r.serverLog)
            && Negotiate(g.server, g.client.hello) == Some(s.terms) && c.suite == s.terms.suite
            && |r.clientLog| > 2 && r.clientLog[1] == Reply(g.server, s.terms) && r.clientLog[2] == Certificate(g.server.chain)
            && (!g.server.auth.NoCert? ==> Certificate(s.chain) in r.clientLog) && (c.requested ==> Certificate(c.chain) in r.serverLog)
  {
    hide Play, Start, Hashes;
    HistoryDecides(g, es);
    var r := Play(g, Start(), es);
    var c, s, l, v := r.state.client, r.state.server, r.clientLog, r.serverLog;
    SameEnd(g, c, s, l, v);
    hide Records, Binding, Negotiate;
  }

  lemma SameEnd(g: Config, c: Client, s: Server, l: seq<Msg>, v: seq<Msg>)
    requires ClientRecord(g, c, l) && ServerRecord(g, s, v) && Binding(g.crypto) && g.client.hello.ClientHello?
    requires c.pc.CDone? && s.pc.SDone? && l != [] && v != [] && l[|l| - 1] == v[|v| - 1]
    ensures c.master == s.master && c.serverFinAt == s.serverFinAt && Hashes(l) == Hashes(v)
    ensures Negotiate(g.server, g.client.hello) == Some(s.terms) && c.suite == s.terms.suite && |l| > 2 && l[1] == Reply(g.server, s.terms)
    ensures l[2] == Certificate(g.server.chain) && (!g.server.auth.NoCert? ==> Certificate(s.chain) in l) && (c.requested ==> Certificate(c.chain) in v)
  {
    hide ClientVerified, ServerVerified, FinishedIn, Hashes, Requested, ChosenFor, Required;
    assert (!g.server.auth.NoCert? ==> Certificate(s.chain) in v) && (c.requested ==> Certificate(c.chain) in l);
    hide ClientChain, ServerChain;
    assert EndsFinished(g.crypto, l, c.master, c.serverFinAt) && EndsFinished(g.crypto, v, s.master, s.serverFinAt);
    assert ClientHellos(g, l, c) by { hide Binding, EndsFinished; }
    assert ServerHellos(g, v, s) by { hide Binding, EndsFinished; ReplyIs(g.server, v[0]); }
    hide ClientKnows, ServerKnows, ClientFinished, ServerFinished;
    assert c.master == s.master && c.serverFinAt == s.serverFinAt;
    SameBeforeLast(l, v, c.serverFinAt);
    hide EndsFinished, Binding, Before;
    SameHashes(l, v, Certificate(s.chain), Certificate(c.chain));
    hide Negotiate, Reply;
  }

  lemma SameBeforeLast(l: seq<Msg>, v: seq<Msg>, x: Option<seq<Msg>>)
    requires Before(l, |l| - 1, x) && Before(v, |v| - 1, x) && l[|l| - 1] == v[|v| - 1]
    ensures Hashes(l) == Hashes(v)
  {
    hide Hashes;
    assert Hashes(l[..|l| - 1]) == Hashes(v[..|v| - 1]);
    HashesMore(l[..|l| - 1], l[|l| - 1]);
    HashesMore(v[..|v| - 1], v[|v| - 1]);
    assert l[..|l| - 1] + [l[|l| - 1]] == l && v[..|v| - 1] + [v[|v| - 1]] == v;
  }

  lemma SameHashes(l: seq<Msg>, v: seq<Msg>, a: Msg, b: Msg)
    requires Hashes(l) == Hashes(v) && a.Certificate? && b.Certificate? && |l| > 2 && |v| > 2
    requires forall i :: 0 <= i < 3 ==> !l[i].ChangeCipher? && !v[i].ChangeCipher?
    ensures l[0] == v[0] && l[1] == v[1] && l[2] == v[2] && (a in l <==> a in v) && (b in l <==> b in v)
  {
    FirstThree(l);
    FirstThree(v);
    InHashes(l, a);
    InHashes(v, a);
    InHashes(l, b);
    InHashes(v, b);
    hide Hashes;
    assert forall i :: 0 <= i < 3 ==> l[i] == l[..3][i] && v[i] == v[..3][i];
  }

  lemma SameHellos(l: seq<Msg>, v: seq<Msg>, j: nat, i: nat)
    requires 2 < j <= |l| && 2 < i <= |v| && Hashes(l[..j]) == Hashes(v[..i])
    requires forall i :: 0 <= i < 3 ==> !l[i].ChangeCipher? && !v[i].ChangeCipher?
    ensures l[0] == v[0] && l[1] == v[1]
  {
    hide Hashes;
    assert forall i :: 0 <= i < 3 ==> l[..j][i] == l[i];
    assert forall k :: 0 <= k < 3 ==> v[..i][k] == v[k];
    SameHashes(l[..j], v[..i], Certificate([]), Certificate([]));
  }

  lemma ReplyIs(sc: ServerConfig, m: Msg)
    ensures Negotiate(sc, m).Some? ==> m.ClientHello?
  {
  }

  predicate ClientHellos(g: Config, l: seq<Msg>, c: Client) {
    |l| > 2 && l[0] == g.client.hello && l[1].ServerHello? && l[2].Certificate? && c.suite == l[1].suite
  }

  predicate ServerHellos(g: Config, v: seq<Msg>, s: Server) {
    |v| > 2 && v[0].ClientHello? && Negotiate(g.server, v[0]) == Some(s.terms) && v[1] == Reply(g.server, s.terms) && v[2] == Certificate(g.server.chain)
  }

  function FirstFinished(log: seq<Msg>): Option<Msg> {
    if log == [] then None else if log[0].Finished? then Some(log[0]) else FirstFinished(log[1..])
  }

  lemma {:induction false} FirstFinishedIs(log: seq<Msg>, j: nat)
    requires j < |log| && log[j].Finished? && NoFinished(log[..j])
    ensures FirstFinished(log) == Some(log[j])
  {
    if j > 0 {
      assert log[..j][0] == log[0];
      assert log[1..][..j - 1] == log[..j][1..];
      FirstFinishedIs(log[1..], j - 1);
    }
  }

  /** The same for a server that has accepted a Finished message, if that is the one the client has sent. */
  lemma ServerIsSure(g: Config, es: seq<Event>)
    requires g.client.hello.ClientHello? && Binding(g.crypto)
    requires var r := Play(g, Start(), es);
             && r.state.client.clientFinAt.Some? && r.state.server.clientFinAt.Some? && FirstFinished(r.clientLog) == FirstFinished(r.serverLog)
    ensures var r := Play(g, Start(), es); var c, s := r.state.client, r.state.server;
            && c.master == s.master && c.clientFinAt == s.clientFinAt && Certificate(g.server.chain) in c.clientFinAt.value
            && Negotiate(g.server, g.client.hello) == Some(s.terms) && c.suite == s.terms.suite
            && (!g.server.auth.NoCert? ==> Certificate(s.chain) in c.clientFinAt.value) && (c.requested ==> Certificate(c.chain) in s.clientFinAt.value)
  {
    hide Play, Start, Hashes;
    HistoryDecides(g, es);
    var r := Play(g, Start(), es);
    var c, s, l, v := r.state.client, r.state.server, r.clientLog, r.serverLog;
    assert ClientFinished(g.crypto, c, l) && ServerFinished(g.crypto, g.server, s, v) && ClientKnows(g.crypto, g.client, c, l) && ServerKnows(g.crypto, g.server, s, v);
    hide Records;
    assert ClientHellos(g, l, c) by { hide Binding, FinishedIn; }
    assert ServerHellos(g, v, s) by { hide Binding, FinishedIn; ReplyIs(g.server, v[0]); }
    hide ClientKnows, ServerKnows, Negotiate;
    var ours, theirs := if c.requested then Certificate(c.chain) else l[2], Certificate(if g.server.auth.NoCert? then g.server.chain else s.chain);
    var j :| FinishedAt(g.crypto, l, j, c.master, c.clientFinAt.value, l[2], ours);
    var i :| FinishedAt(g.crypto, v, i, s.master, s.clientFinAt.value, Certificate(g.server.chain), theirs);
    FirstFinishedIs(l, j);
    FirstFinishedIs(v, i);
    hide FirstFinished, ClientFinished, ServerFinished, NoFinished, FinishedIn;
    assert l[j] == v[i];
    assert c.master == s.master && Hashes(l[..j]) == Hashes(v[..i]);
    SameHellos(l, v, j, i);
    hide Binding;
  }

  // ----- a network that delivers ----------------------------------------------------------------

  function Honest(acts: seq<Action>): (r: seq<Event>)
    ensures |r| == |acts|
  {
    seq(|acts|, i requires 0 <= i < |acts| => Go(acts[i]))
  }

  ghost predicate Follows(g: Config, run: Run) {
    && Inv(g, run.state) && run.clientLog == Between(g, 0, ClientPlace(g, run.state.client.pc))
    && run.serverLog == Between(g, 0, ServerPlace(run.state.server.pc))
  }

  lemma ClientFollows(g: Config, s: State, log: seq<Msg>)
    requires Inv(g, s) && Lawful(g) && log == Between(g, 0, ClientPlace(g, s.client.pc))
    ensures var r := DoClient(g, s); log + Seen(s, r) == Between(g, 0, ClientPlace(g, r.client.pc)) && r.server == s.server
  {
    hide Upto, At, Skip, Present, Lawful, FromClient, ClientSend, ClientReceive, ClientOut, ClientGot, ClientRefuses, ServerRefuses, Between, Master, QueuesOk;
    var i, j := ClientPlace(g, s.client.pc), ServerPlace(s.server.pc);
    ClientParts(g, s.client, i);
    ServerParts(g, s.server, j);
    assert log + ([] + []) == log;
    var r := DoClient(g, s);
    if !s.client.failed && ClientSends(s.client.pc) {
      ClientSendOk(g, s.client, i);
      ClientParts(g, ClientSend(g.crypto, g.client, s.client), Skip(g, i + 1));
      PassBetween(g, 0, i);
      assert Seen(s, r) == [At(g, i)];
    } else if !s.client.failed && ClientAwaits(s.client.pc) && s.toClient != [] {
      ClientReceiveOk(g, s.client, i);
      ClientQueuesReceive(g, i, j, s.toServer, s.toClient);
      var pc := ClientGot(g.crypto, g.client, s.client, s.toClient[0]);
      if pc.Some? {
        ClientParts(g, ClientReceive(g.client, s.client, s.toClient[0], pc.value), Skip(g, i + 1));
        PassBetween(g, 0, i);
        assert Seen(s, r) == [s.toClient[0]];
      } else {
        assert Seen(s, r) == [];
      }
    } else {
      assert Seen(s, s) == [];
    }
    hide ClientOk, ServerOk;
  }

  lemma ServerFollows(g: Config, s: State, log: seq<Msg>)
    requires Inv(g, s) && Lawful(g) && log == Between(g, 0, ServerPlace(s.server.pc))
    ensures var r := DoServer(g, s); log + Seen(s, r) == Between(g, 0, ServerPlace(r.server.pc)) && r.client == s.client
  {
    hide Upto, At, Skip, Present, Lawful, FromClient, ServerSend, ServerReceive, ServerOut, ServerGot, ClientRefuses, ServerRefuses, Between, Master, QueuesOk;
    var i, j := ClientPlace(g, s.client.pc), ServerPlace(s.server.pc);
    ClientParts(g, s.client, i);
    ServerParts(g, s.server, j);
    assert log + ([] + []) == log;
    var r := DoServer(g, s);
    if !s.server.failed && ServerSends(s.server.pc) {
      ServerSendOk(g, s.server, j);
      ServerParts(g, ServerSend(g.crypto, g.server, s.server), Skip(g, j + 1));
      PassBetween(g, 0, j);
      assert Seen(s, r) == [At(g, j)];
    } else if !s.server.failed && ServerAwaits(s.server.pc) && s.toServer != [] {
      ServerReceiveOk(g, s.server, j);
      ServerQueuesReceive(g, i, j, s.toServer, s.toClient);
      var pc := ServerGot(g.crypto, g.server, s.server, s.toServer[0]);
      if pc.Some? {
        ServerParts(g, ServerReceive(g.crypto, g.server, s.server, s.toServer[0], pc.value), Skip(g, j + 1));
        PassBetween(g, 0, j);
        assert Seen(s, r) == [s.toServer[0]];
      } else {
        assert Seen(s, r) == [];
      }
    } else {
      assert Seen(s, s) == [];
    }
    hide ClientOk, ServerOk;
  }

  lemma StepFollows(g: Config, run: Run, a: Action)
    requires Follows(g, run) && Lawful(g)
    ensures var r := Step(g, run, Go(a)); Follows(g, r) && r.state == Do(g, run.state, a)
  {
    hide Inv, Lawful, DoClient, DoServer, Seen, Between, ClientPlace, ServerPlace;
    if a.ClientStep? {
      ClientInv(g, run.state);
      ClientFollows(g, run.state, run.clientLog);
    } else {
      ServerInv(g, run.state);
      ServerFollows(g, run.state, run.serverLog);
    }
  }

  lemma HonestRest(acts: seq<Action>)
    requires acts != []
    ensures Honest(acts)[0] == Go(acts[0]) && Honest(acts)[1..] == Honest(acts[1..])
  {
  }

  lemma {:induction false} PlayFollows(g: Config, run: Run, acts: seq<Action>)
    requires Follows(g, run) && Lawful(g)
    ensures var r := Play(g, run, Honest(acts)); Follows(g, r) && r.state == Exec(g, run.state, acts)
    decreases |acts|
  {
    if acts != [] {
      hide Follows, Lawful, Step, Do, Honest;
      StepFollows(g, run, acts[0]);
      HonestRest(acts);
      PlayFollows(g, Step(g, run, Go(acts[0])), acts[1..]);
    }
  }

  lemma HonestFollows(g: Config, acts: seq<Action>)
    requires Lawful(g)
    ensures var r := Play(g, Start(), Honest(acts)); Follows(g, r) && r.state == Exec(g, Init(), acts)
  {
    InitInv(g);
    hide Inv;
    PlayFollows(g, Start(), acts);
  }

  /** Where messages arrive as they were sent: at every moment the history of one side is a beginning of the other's. */
  lemma OneHistory(g: Config, acts: seq<Action>)
    requires Lawful(g)
    ensures var r := Play(g, Start(), Honest(acts));
            && r.state == Exec(g, Init(), acts)
            && (r.clientLog <= r.serverLog || r.serverLog <= r.clientLog)
  {
    HonestFollows(g, acts);
    hide Inv, Between, Play;
    var r := Play(g, Start(), Honest(acts));
    var i, j := ClientPlace(g, r.state.client.pc), ServerPlace(r.state.server.pc);
    if i <= j { BetweenSplit(g, 0, i, j); } else { BetweenSplit(g, 0, j, i); }
  }

  // ----- the whole exchange ---------------------------------------------------------------------

  /** Up to the key exchange. */
  function Opening(g: Config): seq<Msg> {
    [g.client.hello, HelloBack(g), Certificate(g.server.chain)]
    + (if Params(g).Some? then [ServerKeyExchange(Params(g).value)] else [])
    + (if g.server.auth.NoCert? then [] else [CertRequest(g.server.authorities)])
    + [HelloDone]
    + (if g.server.auth.NoCert? then [] else [Certificate(Chosen(g))])
    + [ClientKeyExchange(g.crypto.wrap(g.client.premaster))]
  }

  function Authenticated(g: Config): seq<Msg> {
    Opening(g) + if Chosen(g) == [] then [] else [CertVerify(g.crypto.sign(Opening(g)))]
  }

  function NextOf(g: Config): seq<Msg> { if UsesNpn(g) then [NextProto(g.client.proto)] else [] }

  /** The client's Finished, and the ticket if there is one. */
  function Closing(g: Config): seq<Msg> {
    [Finished(g.crypto.verifyData(Master(g), true, Authenticated(g) + NextOf(g)))]
    + if UsesTicket(g) then [NewTicket(g.server.ticket(Master(g)))] else []
  }

  function ServersLast(g: Config): Msg {
    Finished(g.crypto.verifyData(Master(g), false, Authenticated(g) + NextOf(g) + Closing(g)))
  }

  lemma PlaceNext(g: Config, i: nat, b: seq<Msg>, u: seq<Msg>)
    requires Between(g, 0, i) == b && Upto(g, i) == u
    ensures Between(g, 0, i + 1) == b + if Present(g, i) then [At(g, i)] else []
    ensures Upto(g, i + 1) == u + if Present(g, i) && !At(g, i).ChangeCipher? then [At(g, i)] else []
  {
    hide At, Present;
  }

  lemma FlightPlaces(g: Config)
    ensures At(g, 0) == g.client.hello && At(g, 1) == HelloBack(g) && At(g, 2) == Certificate(g.server.chain) && At(g, 6) == HelloDone
    ensures At(g, 5) == CertRequest(g.server.authorities) && At(g, 7) == Certificate(Chosen(g))
    ensures At(g, 8) == ClientKeyExchange(g.crypto.wrap(g.client.premaster))
    ensures Params(g).Some? ==> At(g, 4) == ServerKeyExchange(Params(g).value)
    ensures Present(g, 0) && Present(g, 1) && Present(g, 2) && Present(g, 6) && Present(g, 8) && (Present(g, 3) <==> UsesOcsp(g))
    ensures (Present(g, 4) <==> Params(g).Some?) && (Present(g, 5) <==> !g.server.auth.NoCert?) && (Present(g, 7) <==> !g.server.auth.NoCert?)
  {
    hide Upto, Master, Params, Chosen, HelloBack, UsesOcsp;
  }

  lemma OpeningIs(g: Config)
    requires !UsesOcsp(g) && g.client.hello.ClientHello?
    ensures Between(g, 0, 9) == Opening(g) == Upto(g, 9)
  {
    assert Between(g, 0, 0) == [] == Upto(g, 0);
    FlightPlaces(g);
    assert HelloBack(g).ServerHello?;
    hide Between, Upto, UsesOcsp, Params, Chosen, Master, HelloBack, At, Present;
    var b := [g.client.hello, HelloBack(g), Certificate(g.server.chain)];
    PlaceNext(g, 0, [], []);
    assert [] + [g.client.hello] == [g.client.hello];
    PlaceNext(g, 1, [g.client.hello], [g.client.hello]);
    assert [g.client.hello] + [HelloBack(g)] == b[..2];
    PlaceNext(g, 2, b[..2], b[..2]);
    assert b[..2] + [Certificate(g.server.chain)] == b;
    PlaceNext(g, 3, b, b);
    assert b + [] == b;
    PlaceNext(g, 4, b, b);
    b := b + if Params(g).Some? then [ServerKeyExchange(Params(g).value)] else [];
    PlaceNext(g, 5, b, b);
    b := b + if g.server.auth.NoCert? then [] else [CertRequest(g.server.authorities)];
    PlaceNext(g, 6, b, b);
    b := b + [HelloDone];
    PlaceNext(g, 7, b, b);
    b := b + if g.server.auth.NoCert? then [] else [Certificate(Chosen(g))];
    PlaceNext(g, 8, b, b);
  }

  lemma LastPlaces(g: Config)
    ensures At(g, 9) == CertVerify(g.crypto.sign(Upto(g, 9))) && At(g, 10) == ChangeCipher == At(g, 14) && At(g, 11) == NextProto(g.client.proto)
    ensures At(g, 12) == Finished(g.crypto.verifyData(Master(g), true, Upto(g, 12))) && At(g, 13) == NewTicket(g.server.ticket(Master(g)))
    ensures At(g, 15) == Finished(g.crypto.verifyData(Master(g), false, Upto(g, 15)))
    ensures (Present(g, 9) <==> Chosen(g) != []) && Present(g, 10) && (Present(g, 11) <==> UsesNpn(g)) && Present(g, 12)
    ensures (Present(g, 13) <==> UsesTicket(g)) && Present(g, 14) && Present(g, 15)
  {
    hide Upto, Master, Params, Chosen, HelloBack, UsesNpn, UsesTicket;
  }

  lemma MiddleIs(g: Config)
    requires !UsesOcsp(g) && g.client.hello.ClientHello?
    ensures Upto(g, 12) == Authenticated(g) + NextOf(g) && Between(g, 0, 12) == Authenticated(g) + [ChangeCipher] + NextOf(g)
  {
    OpeningIs(g);
    LastPlaces(g);
    hide Between, Upto, UsesOcsp, Opening, Chosen, Master, UsesNpn, UsesTicket, At, Present;
    PlaceNext(g, 9, Opening(g), Opening(g));
    var b, u := Authenticated(g), Authenticated(g);
    PlaceNext(g, 10, b, u);
    assert u + [] == u;
    b := b + [ChangeCipher];
    PlaceNext(g, 11, b, u);
  }

  lemma RestIs(g: Config)
    requires !UsesOcsp(g) && g.client.hello.ClientHello?
    ensures Upto(g, 12) == Authenticated(g) + NextOf(g) && Upto(g, 15) == Authenticated(g) + NextOf(g) + Closing(g)
    ensures Between(g, 0, 16) == Authenticated(g) + [ChangeCipher] + NextOf(g) + Closing(g) + [ChangeCipher] + [ServersLast(g)]
  {
    MiddleIs(g);
    LastPlaces(g);
    hide Between, Upto, UsesOcsp, Authenticated, NextOf, Chosen, Master, UsesNpn, UsesTicket, At, Present;
    var b, u := Authenticated(g) + [ChangeCipher] + NextOf(g), Authenticated(g) + NextOf(g);
    PlaceNext(g, 12, b, u);
    var f, tk := [At(g, 12)], if UsesTicket(g) then [At(g, 13)] else [];
    PlaceNext(g, 13, b + f, u + f);
    assert (b + f) + tk == b + (f + tk) && (u + f) + tk == u + (f + tk);
    assert f + tk == Closing(g);
    hide Closing;
    b, u := b + Closing(g), u + Closing(g);
    PlaceNext(g, 14, b, u);
    assert u + [] == u;
    b := b + [ChangeCipher];
    PlaceNext(g, 15, b, u);
  }

  /** Where messages arrive as they were sent and both have finished, both histories are this list, and the three transcripts are what
      it holds, without change-cipher-spec, before the three messages that authenticate it. */
  lemma WholeExchange(g: Config, acts: seq<Action>)
    requires Lawful(g)
    requires var s := Exec(g, Init(), acts); s.client.pc.CDone? && s.server.pc.SDone?
    ensures var r := Play(g, Start(), Honest(acts)); var c := r.state.client;
            && r.state == Exec(g, Init(), acts) && r.clientLog == r.serverLog
            && r.clientLog == Authenticated(g) + [ChangeCipher] + NextOf(g) + Closing(g) + [ChangeCipher] + [ServersLast(g)]
            && c.verifyAt == (if Chosen(g) == [] then None else Some(Opening(g)))
            && c.clientFinAt == Some(Authenticated(g) + NextOf(g))
            && c.serverFinAt == Some(Authenticated(g) + NextOf(g) + Closing(g))
  {
    HonestFollows(g, acts);
    var s := Exec(g, Init(), acts);
    assert Inv(g, s) && g.client.hello.ClientHello?;
    DoneFacts(g, s);
    Succeeded(g, s);
    hide Inv, Play, Exec, Start, Honest, Lawful, UsesOcsp, GoodReply, Negotiated;
    RestIs(g);
    OpeningIs(g);
    hide Authenticated, Opening, NextOf, Closing, ServersLast, Between, Upto, Chosen, Master;
  }

  // ----- the terms ------------------------------------------------------------------------------

  /** What the server's hello says: its own random, the lower of the two versions, no renegotiation data; a protocol only for a client that lists
      some, and then the first of the server's own list that the client has too; the list of protocols itself only for a client that
      asks for it and lists none; a ticket exactly if asked for and not disabled; a certificate status exactly if asked for and at
      hand. */
  lemma TermsMean(sc: ServerConfig, hello: Msg)
    requires Negotiate(sc, hello).Some?
    ensures var r := Reply(sc, Negotiate(sc, hello).value); var p := r.protocol;
            && r.random == sc.random && r.vers <= hello.vers && r.vers <= sc.maxVers && (r.vers == hello.vers || r.vers == sc.maxVers)
            && r.compression == 0 && r.renegotiation == []
            && (p.Some? ==> exists k :: 0 <= k < |sc.protos| && sc.protos[k] == p.value && p.value in hello.alpn && forall j :: 0 <= j < k ==> sc.protos[j] !in hello.alpn)
            && (p.None? <==> forall q :: q in sc.protos ==> q !in hello.alpn)
            && (r.npn <==> hello.alpn == [] && hello.npn && sc.protos != [])
            && (r.ticket <==> hello.ticket && !sc.ticketsDisabled) && (r.ocsp <==> hello.ocsp && sc.staple.Some?)
            && r.suite in {0xe013, 0xe011} && (0x5600 in hello.suites ==> hello.vers >= sc.maxVers)
  {
    FirstInIs(sc.protos, hello.alpn);
    PickIs(sc, hello);
    hide PickSuite, FirstIn;
  }

  /** A client without a certificate gets through exactly if the server does not ask for one, or asks without insisting. */
  lemma EmptyChain(g: Config)
    requires Chosen(g) == []
    ensures ClientChainOk(g) <==>
              match g.server.auth
              case NoCert => true
              case RequestCert => g.server.accept(RequestCert, [])
              case VerifyIfGiven => g.server.accept(VerifyIfGiven, [])
              case RequireAny => false
              case RequireAndVerify => false
  {
  }
}
