/**
 The full GM handshake (`zgmtls/gm_handshake_client_double.go`, `zgmtls/gm_handshake_server_double.go`): two
 programs that talk over an in-order channel in each direction, in every interleaving. Messages are abstract
 values that arrive as they were sent (ClientHello, ServerHello and Certificates show that printing and parsing keep
 them, bytes included); hash, signature, key exchange and PRF are arbitrary functions. A session is never resumed.
 */
module Handshake {
  import opened Prelude

  datatype Msg =
    | ClientHello(random: nat, vers: nat, suites: seq<nat>, compressions: seq<nat>, renegotiation: seq<nat>, alpn: seq<nat>,
                  ticket: bool, npn: bool, ocsp: bool)
    | ServerHello(random: nat, vers: nat, suite: nat, compression: nat, renegotiation: seq<nat>, protocol: Option<nat>,
                  ticket: bool, npn: bool, ocsp: bool)
    | Certificate(certs: seq<nat>)
    | CertStatus(response: nat)
    | ServerKeyExchange(params: nat)
    | CertRequest(authorities: seq<nat>)
    | HelloDone
    | ClientKeyExchange(secret: nat)
    | CertVerify(signature: nat)
    | ChangeCipher
    | NextProto(proto: nat)
    | Finished(verifyData: nat)
    | NewTicket(sealed: nat)

  /** `NoClientCert` up to `RequireAndVerifyClientCert`. */
  datatype Auth = NoCert | RequestCert | RequireAny | VerifyIfGiven | RequireAndVerify

  /** The functions both sides compute with; the transcript of the handshake messages stands for its hash. */
  datatype Crypto = Crypto(
    verifyData: (nat, bool, seq<Msg>) -> nat,
    master: (nat, Msg, Msg) -> nat,
    wrap: nat -> nat,
    unwrap: nat -> Option<nat>,
    sign: seq<Msg> -> nat,
    check: (seq<nat>, seq<Msg>, nat) -> bool)

  datatype ClientConfig = ClientConfig(hello: Msg, premaster: nat, acceptServer: seq<nat> -> bool,
                                       choose: seq<nat> -> Option<seq<nat>>, proto: nat)

  /** `params` are those of the ServerKeyExchange message, for a suite that has one. */
  datatype ServerConfig = ServerConfig(random: nat, minVers: nat, maxVers: nat, suites: seq<nat>, preferOwn: bool, chain: seq<nat>,
                                       staple: Option<nat>, params: nat -> Option<nat>, auth: Auth,
                                       authorities: seq<nat>, ticketsDisabled: bool, protos: seq<nat>,
                                       accept: (Auth, seq<nat>) -> bool, ticket: nat -> nat)

  datatype Config = Config(crypto: Crypto, client: ClientConfig, server: ServerConfig)

  datatype ClientPc =
    | CSendHello | CAwaitHello | CAwaitCert | CAwaitSkx | CAwaitReq | CAwaitDone | CSendCert | CSendKx | CSendVerify
    | CSendCcs | CSendNext | CSendFin | CAwaitTicket | CAwaitCcs | CAwaitFin | CDone

  datatype ServerPc =
    | SAwaitHello | SSendHello | SSendCert | SSendStatus | SSendSkx | SSendReq | SSendDone | SAwaitCert | SAwaitKx | SAwaitVerify
    | SAwaitCcs | SAwaitNext | SAwaitFin | SSendTicket | SSendCcs | SSendFin | SDone

  /** What the server puts into its hello. */
  datatype Terms = Terms(vers: nat, suite: nat, protocol: Option<nat>, ticket: bool, npn: bool, ocsp: bool)

  /** The last three fields record the transcript at the three places where it is hashed. */
  datatype Client = Client(pc: ClientPc, failed: bool, transcript: seq<Msg>, suite: nat, ticket: bool, npn: bool, requested: bool,
                           chain: seq<nat>, master: nat, verifyAt: Option<seq<Msg>>, clientFinAt: Option<seq<Msg>>,
                           serverFinAt: Option<seq<Msg>>)

  datatype Server = Server(pc: ServerPc, failed: bool, transcript: seq<Msg>, terms: Terms, chain: seq<nat>,
                           master: nat, verifyAt: Option<seq<Msg>>, clientFinAt: Option<seq<Msg>>, serverFinAt: Option<seq<Msg>>)

  datatype State = State(client: Client, server: Server, toServer: seq<Msg>, toClient: seq<Msg>)

  datatype Action = ClientStep | ServerStep

  const NoTerms: Terms := Terms(0, 0, None, false, false, false)
  const NewClient: Client := Client(CSendHello, false, [], 0, false, false, false, [], 0, None, None, None)
  const NewServer: Server := Server(SAwaitHello, false, [], NoTerms, [], 0, None, None, None)

  function Init(): State { State(NewClient, NewServer, [], []) }

  function Hashed(t: seq<Msg>, m: Msg): seq<Msg> {
    if m.ChangeCipher? then t else t + [m]
  }

  // ----- hellos ---------------------------------------------------------------------------------

  /** `VersionGMSSL`, `TLS_FALLBACK_SCSV`, and the two suites of `gmCipherSuites`. */
  const GmSsl: nat := 0x0101
  const Fallback: nat := 0x5600
  const EccSm4: nat := 0xe013
  const EcdheSm4: nat := 0xe011

  predicate Known(id: nat) { id == EccSm4 || id == EcdheSm4 }

  function KnownOf(ids: seq<nat>): seq<nat> {
    if ids == [] then [] else (if Known(ids[0]) then [ids[0]] else []) + KnownOf(ids[1..])
  }

  /** The first of `prefer` that is in `supported`. */
  function FirstIn(prefer: seq<nat>, supported: seq<nat>): Option<nat> {
    if prefer == [] then None else if prefer[0] in supported then Some(prefer[0]) else FirstIn(prefer[1..], supported)
  }

  /** The loop over `setCipherSuite`. */
  function PickSuite(sc: ServerConfig, offered: seq<nat>): Option<nat> {
    if sc.preferOwn then FirstIn(sc.suites, KnownOf(offered)) else FirstIn(offered, KnownOf(sc.suites))
  }

  /** `mutualVersion`, for a version that is not too low. */
  function Version(sc: ServerConfig, vers: nat): nat { Min(vers, sc.maxVers) }

  /** `readClientHello`, and the flags that `doFullHandshake` adds; None is a refusal. */
  function Negotiate(sc: ServerConfig, m: Msg): Option<Terms> {
    if !m.ClientHello? || m.vers < sc.minVers || 0 !in m.compressions || m.renegotiation != [] || |sc.chain| < 2 then None
    else
      var suite := PickSuite(sc, m.suites);
      if suite.None? || (Fallback in m.suites && m.vers < sc.maxVers) then None
      else Some(Terms(Version(sc, m.vers), suite.value, if m.alpn == [] then None else FirstIn(sc.protos, m.alpn),
                      m.ticket && !sc.ticketsDisabled, m.alpn == [] && m.npn && sc.protos != [], m.ocsp && sc.staple.Some?))
  }

  function Reply(sc: ServerConfig, t: Terms): Msg {
    ServerHello(sc.random, t.vers, t.suite, 0, [], t.protocol, t.ticket, t.npn, t.ocsp)
  }

  /** The client's tests of a ServerHello: version, `pickCipherSuite`, and those of `processServerHello`. */
  predicate GoodReply(hello: Msg, m: Msg) {
    && hello.ClientHello? && m.ServerHello? && m.vers == GmSsl && m.suite in hello.suites && Known(m.suite) && m.compression == 0
    && m.renegotiation == [] && (m.npn ==> hello.npn) && (m.protocol.Some? ==> hello.alpn != []) && !(m.npn && m.protocol.Some?)
  }

  // ----- client ---------------------------------------------------------------------------------

  predicate ClientSends(pc: ClientPc) {
    pc.CSendHello? || pc.CSendCert? || pc.CSendKx? || pc.CSendVerify? || pc.CSendCcs? || pc.CSendNext? || pc.CSendFin?
  }

  predicate ClientAwaits(pc: ClientPc) {
    pc.CAwaitHello? || pc.CAwaitCert? || pc.CAwaitSkx? || pc.CAwaitReq? || pc.CAwaitDone? || pc.CAwaitTicket? || pc.CAwaitCcs? || pc.CAwaitFin?
  }

  function ClientOut(k: Crypto, cc: ClientConfig, c: Client): Msg {
    match c.pc
    case CSendHello => cc.hello
    case CSendCert => Certificate(c.chain)
    case CSendKx => ClientKeyExchange(k.wrap(cc.premaster))
    case CSendVerify => CertVerify(k.sign(c.transcript))
    case CSendNext => NextProto(cc.proto)
    case CSendFin => Finished(k.verifyData(c.master, true, c.transcript))
    case _ => ChangeCipher
  }

  function ClientSent(c: Client): ClientPc {
    match c.pc
    case CSendHello => CAwaitHello
    case CSendCert => CSendKx
    case CSendKx => if c.chain != [] then CSendVerify else CSendCcs
    case CSendVerify => CSendCcs
    case CSendCcs => if c.npn then CSendNext else CSendFin
    case CSendNext => CSendFin
    case CSendFin => if c.ticket then CAwaitTicket else CAwaitCcs
    case _ => c.pc
  }

  function ClientSend(k: Crypto, cc: ClientConfig, c: Client): Client {
    var pc := ClientSent(c);
    c.(pc := pc, transcript := Hashed(c.transcript, ClientOut(k, cc, c)),
       master := if pc.CSendCcs? && |c.transcript| >= 2 then k.master(cc.premaster, c.transcript[0], c.transcript[1]) else c.master,
       verifyAt := if c.pc.CSendVerify? then Some(c.transcript) else c.verifyAt,
       clientFinAt := if c.pc.CSendFin? then Some(c.transcript) else c.clientFinAt)
  }

  /** Where a received message leads; None is an error, on which the connection is given up. */
  function AfterReq(requested: bool, m: Msg): Option<ClientPc> {
    if !m.HelloDone? then None else Some(if requested then CSendCert else CSendKx)
  }

  function AfterSkx(cc: ClientConfig, m: Msg): Option<ClientPc> {
    if m.CertRequest? then (if cc.choose(m.authorities).Some? then Some(CAwaitDone) else None) else AfterReq(false, m)
  }

  function ClientGot(k: Crypto, cc: ClientConfig, c: Client, m: Msg): Option<ClientPc> {
    match c.pc
    case CAwaitHello => if GoodReply(cc.hello, m) then Some(CAwaitCert) else None
    case CAwaitCert => if m.Certificate? && |m.certs| >= 2 && cc.acceptServer(m.certs) then Some(CAwaitSkx) else None
    case CAwaitSkx => if m.ServerKeyExchange? then Some(CAwaitReq) else AfterSkx(cc, m)
    case CAwaitReq => AfterSkx(cc, m)
    case CAwaitDone => AfterReq(c.requested, m)
    case CAwaitTicket => if m.NewTicket? then Some(CAwaitCcs) else None
    case CAwaitCcs => if m.ChangeCipher? then Some(CAwaitFin) else None
    case CAwaitFin => if m.Finished? && m.verifyData == k.verifyData(c.master, false, c.transcript) then Some(CDone) else None
    case _ => None
  }

  function ClientReceive(cc: ClientConfig, c: Client, m: Msg, pc: ClientPc): Client {
    c.(pc := pc, transcript := Hashed(c.transcript, m),
       suite := if m.ServerHello? then m.suite else c.suite,
       ticket := if m.ServerHello? then m.ticket else c.ticket, npn := if m.ServerHello? then m.npn else c.npn,
       requested := c.requested || m.CertRequest?,
       chain := if m.CertRequest? && cc.choose(m.authorities).Some? then cc.choose(m.authorities).value else c.chain,
       serverFinAt := if c.pc.CAwaitFin? then Some(c.transcript) else c.serverFinAt)
  }

  // ----- server ---------------------------------------------------------------------------------

  predicate ServerSends(pc: ServerPc) {
    pc.SSendHello? || pc.SSendCert? || pc.SSendStatus? || pc.SSendSkx? || pc.SSendReq? || pc.SSendDone?
    || pc.SSendTicket? || pc.SSendCcs? || pc.SSendFin?
  }

  predicate ServerAwaits(pc: ServerPc) {
    pc.SAwaitHello? || pc.SAwaitCert? || pc.SAwaitKx? || pc.SAwaitVerify? || pc.SAwaitCcs? || pc.SAwaitNext? || pc.SAwaitFin?
  }

  function ServerOut(k: Crypto, sc: ServerConfig, s: Server): Msg {
    match s.pc
    case SSendHello => Reply(sc, s.terms)
    case SSendCert => Certificate(sc.chain)
    case SSendStatus => CertStatus(if sc.staple.Some? then sc.staple.value else 0)
    case SSendSkx => ServerKeyExchange(if sc.params(s.terms.suite).Some? then sc.params(s.terms.suite).value else 0)
    case SSendReq => CertRequest(sc.authorities)
    case SSendDone => HelloDone
    case SSendTicket => NewTicket(sc.ticket(s.master))
    case SSendFin => Finished(k.verifyData(s.master, false, s.transcript))
    case _ => ChangeCipher
  }

  function ToReq(sc: ServerConfig): ServerPc { if sc.auth.NoCert? then SSendDone else SSendReq }

  function ToSkx(sc: ServerConfig, suite: nat): ServerPc { if sc.params(suite).Some? then SSendSkx else ToReq(sc) }

  function ServerSent(sc: ServerConfig, s: Server): ServerPc {
    match s.pc
    case SSendHello => SSendCert
    case SSendCert => if s.terms.ocsp then SSendStatus else ToSkx(sc, s.terms.suite)
    case SSendStatus => ToSkx(sc, s.terms.suite)
    case SSendSkx => ToReq(sc)
    case SSendReq => SSendDone
    case SSendDone => if sc.auth.NoCert? then SAwaitKx else SAwaitCert
    case SSendTicket => SSendCcs
    case SSendCcs => SSendFin
    case SSendFin => SDone
    case _ => s.pc
  }

  function ServerSend(k: Crypto, sc: ServerConfig, s: Server): Server {
    s.(pc := ServerSent(sc, s), transcript := Hashed(s.transcript, ServerOut(k, sc, s)),
       serverFinAt := if s.pc.SSendFin? then Some(s.transcript) else s.serverFinAt)
  }

  predicate Required(a: Auth) { a.RequireAny? || a.RequireAndVerify? }

  function ServerGot(k: Crypto, sc: ServerConfig, s: Server, m: Msg): Option<ServerPc> {
    match s.pc
    case SAwaitHello => if Negotiate(sc, m).Some? then Some(SSendHello) else None
    case SAwaitCert =>
      if m.Certificate? && !(m.certs == [] && Required(sc.auth)) && sc.accept(sc.auth, m.certs) then Some(SAwaitKx) else None
    case SAwaitKx =>
      if m.ClientKeyExchange? && k.unwrap(m.secret).Some? then Some(if s.chain != [] then SAwaitVerify else SAwaitCcs) else None
    case SAwaitVerify => if m.CertVerify? && k.check(s.chain, s.transcript, m.signature) then Some(SAwaitCcs) else None
    case SAwaitCcs => if m.ChangeCipher? then Some(if s.terms.npn then SAwaitNext else SAwaitFin) else None
    case SAwaitNext => if m.NextProto? then Some(SAwaitFin) else None
    case SAwaitFin =>
      if m.Finished? && m.verifyData == k.verifyData(s.master, true, s.transcript) then Some(if s.terms.ticket then SSendTicket else SSendCcs) else None
    case _ => None
  }

  function ServerReceive(k: Crypto, sc: ServerConfig, s: Server, m: Msg, pc: ServerPc): Server {
    s.(pc := pc, transcript := Hashed(s.transcript, m),
       terms := if m.ClientHello? && Negotiate(sc, m).Some? then Negotiate(sc, m).value else s.terms,
       chain := if m.Certificate? then m.certs else s.chain,
       master := if m.ClientKeyExchange? && k.unwrap(m.secret).Some? && |s.transcript| >= 2
                 then k.master(k.unwrap(m.secret).value, s.transcript[0], s.transcript[1]) else s.master,
       verifyAt := if s.pc.SAwaitVerify? then Some(s.transcript) else s.verifyAt,
       clientFinAt := if s.pc.SAwaitFin? then Some(s.transcript) else s.clientFinAt)
  }

  // ----- both together --------------------------------------------------------------------------

  function ClientTakes(g: Config, s: State): State
    requires s.toClient != []
  {
    var m := s.toClient[0];
    var pc := ClientGot(g.crypto, g.client, s.client, m);
    if pc.None? then s.(client := s.client.(failed := true))
    else s.(client := ClientReceive(g.client, s.client, m, pc.value), toClient := s.toClient[1..])
  }

  function DoClient(g: Config, s: State): State {
    if s.client.failed then s
    else if ClientSends(s.client.pc) then
      s.(client := ClientSend(g.crypto, g.client, s.client), toServer := s.toServer + [ClientOut(g.crypto, g.client, s.client)])
    else if ClientAwaits(s.client.pc) && s.toClient != [] then ClientTakes(g, s)
    else s
  }

  function ServerTakes(g: Config, s: State): State
    requires s.toServer != []
  {
    var m := s.toServer[0];
    var pc := ServerGot(g.crypto, g.server, s.server, m);
    if pc.None? then s.(server := s.server.(failed := true))
    else s.(server := ServerReceive(g.crypto, g.server, s.server, m, pc.value), toServer := s.toServer[1..])
  }

  function DoServer(g: Config, s: State): State {
    if s.server.failed then s
    else if ServerSends(s.server.pc) then
      s.(server := ServerSend(g.crypto, g.server, s.server), toClient := s.toClient + [ServerOut(g.crypto, g.server, s.server)])
    else if ServerAwaits(s.server.pc) && s.toServer != [] then ServerTakes(g, s)
    else s
  }

  function Do(g: Config, s: State, a: Action): State {
    if a.ClientStep? then DoClient(g, s) else DoServer(g, s)
  }

  function Exec(g: Config, s: State, acts: seq<Action>): State
    decreases |acts|
  {
    if acts == [] then s else Exec(g, Do(g, s, acts[0]), acts[1..])
  }

  // ----- the script: the handshake of section 7.3 of RFC 5246 with these two configurations -----------

  /** What the server makes of the client's hello. */
  function Agreed(g: Config): Terms {
    var r := Negotiate(g.server, g.client.hello);
    if r.Some? then r.value else NoTerms
  }

  predicate Negotiated(g: Config) { Negotiate(g.server, g.client.hello).Some? }

  predicate UsesTicket(g: Config) { Agreed(g).ticket }

  predicate UsesNpn(g: Config) { Agreed(g).npn }

  predicate UsesOcsp(g: Config) { Agreed(g).ocsp }

  function Params(g: Config): Option<nat> { g.server.params(Agreed(g).suite) }

  function Chosen(g: Config): seq<nat> {
    if g.server.auth.NoCert? || g.client.choose(g.server.authorities).None? then [] else g.client.choose(g.server.authorities).value
  }

  function Master(g: Config): nat {
    g.crypto.master(g.client.premaster, g.client.hello, HelloBack(g))
  }

  function HelloBack(g: Config): Msg {
    Reply(g.server, Agreed(g))
  }

  /** Sixteen places in the order of the handshake; some are left out. */
  predicate Present(g: Config, i: nat) {
    if i == 3 then UsesOcsp(g)
    else if i == 4 then Params(g).Some?
    else if i == 5 || i == 7 then !g.server.auth.NoCert?
    else if i == 9 then Chosen(g) != []
    else if i == 11 then UsesNpn(g)
    else if i == 13 then UsesTicket(g)
    else i < 16
  }

  predicate FromClient(i: nat) {
    i == 0 || 7 <= i <= 12
  }

  /** The transcript before place `i`. */
  function Upto(g: Config, i: nat): seq<Msg>
    decreases i, 0
  {
    if i == 0 then [] else if Present(g, i - 1) then Hashed(Upto(g, i - 1), At(g, i - 1)) else Upto(g, i - 1)
  }

  /** The message at place `i`. */
  function At(g: Config, i: nat): Msg
    decreases i, 1
  {
    var k := g.crypto;
    if i == 0 then g.client.hello
    else if i == 1 then HelloBack(g)
    else if i == 2 then Certificate(g.server.chain)
    else if i == 3 then CertStatus(if g.server.staple.Some? then g.server.staple.value else 0)
    else if i == 4 then ServerKeyExchange(if Params(g).Some? then Params(g).value else 0)
    else if i == 5 then CertRequest(g.server.authorities)
    else if i == 6 then HelloDone
    else if i == 7 then Certificate(Chosen(g))
    else if i == 8 then ClientKeyExchange(k.wrap(g.client.premaster))
    else if i == 9 then CertVerify(k.sign(Upto(g, i)))
    else if i == 11 then NextProto(g.client.proto)
    else if i == 12 then Finished(k.verifyData(Master(g), true, Upto(g, i)))
    else if i == 13 then NewTicket(g.server.ticket(Master(g)))
    else if i == 15 then Finished(k.verifyData(Master(g), false, Upto(g, i)))
    else ChangeCipher
  }

  /** The messages of places `i` to `j`, change-cipher-spec included. */
  function Between(g: Config, i: nat, j: nat): seq<Msg>
    decreases j
  {
    if j <= i then [] else Between(g, i, j - 1) + if Present(g, j - 1) then [At(g, j - 1)] else []
  }

  // ----- invariant ------------------------------------------------------------------------------

  /** The first place from `i` on that is used. */
  function Skip(g: Config, i: nat): (r: nat)
    ensures i <= r && (i <= 16 ==> r <= 16)
    decreases 16 - i
  {
    if i >= 16 || Present(g, i) then i else Skip(g, i + 1)
  }

  /** The place of the next message a side will send or receive. */
  function ClientPlace(g: Config, pc: ClientPc): nat {
    match pc
    case CSendHello => 0
    case CAwaitHello => 1
    case CAwaitCert => 2
    case CAwaitSkx => Skip(g, 3)
    case CAwaitReq => Skip(g, 5)
    case CAwaitDone => 6
    case CSendCert => 7
    case CSendKx => 8
    case CSendVerify => 9
    case CSendCcs => 10
    case CSendNext => 11
    case CSendFin => 12
    case CAwaitTicket => 13
    case CAwaitCcs => 14
    case CAwaitFin => 15
    case CDone => 16
  }

  function ServerPlace(pc: ServerPc): nat {
    match pc
    case SAwaitHello => 0
    case SSendHello => 1
    case SSendCert => 2
    case SSendStatus => 3
    case SSendSkx => 4
    case SSendReq => 5
    case SSendDone => 6
    case SAwaitCert => 7
    case SAwaitKx => 8
    case SAwaitVerify => 9
    case SAwaitCcs => 10
    case SAwaitNext => 11
    case SAwaitFin => 12
    case SSendTicket => 13
    case SSendCcs => 14
    case SSendFin => 15
    case SDone => 16
  }

  function Mark(g: Config, used: bool, i: nat): Option<seq<Msg>> {
    if used then Some(Upto(g, i)) else None
  }

  /** What the client knows at place `i` is what the script says. */
  ghost predicate ClientOk(g: Config, c: Client, i: nat) {
    && i == ClientPlace(g, c.pc) <= 16 && (i < 16 ==> Present(g, i)) && c.transcript == Upto(g, i)
    && (i >= 2 ==> c.ticket == UsesTicket(g) && c.npn == UsesNpn(g) && c.suite == Agreed(g).suite && GoodReply(g.client.hello, HelloBack(g)))
    && c.requested == (i > 5 && !g.server.auth.NoCert?) && (c.requested ==> g.client.choose(g.server.authorities).Some?)
    && c.chain == (if i > 5 then Chosen(g) else []) && (i >= 10 ==> c.master == Master(g))
    && (i > 2 ==> |g.server.chain| >= 2 && g.client.acceptServer(g.server.chain)) && (i > 3 ==> !UsesOcsp(g))
    && c.verifyAt == Mark(g, i > 9 && Present(g, 9), 9) && c.clientFinAt == Mark(g, i > 12, 12) && c.serverFinAt == Mark(g, i > 15, 15)
  }

  ghost predicate ServerOk(g: Config, s: Server, i: nat) {
    && i == ServerPlace(s.pc) <= 16 && (i < 16 ==> Present(g, i)) && s.transcript == Upto(g, i)
    && (i >= 1 ==> Negotiated(g) && s.terms == Agreed(g))
    && s.chain == (if i > 7 then Chosen(g) else []) && (i > 8 ==> s.master == Master(g))
    && (i > 7 && !g.server.auth.NoCert? ==> !(Chosen(g) == [] && Required(g.server.auth)) && g.server.accept(g.server.auth, Chosen(g)))
    && s.verifyAt == Mark(g, i > 9 && Present(g, 9), 9) && s.clientFinAt == Mark(g, i > 12, 12) && s.serverFinAt == Mark(g, i > 15, 15)
  }

  /** The side that is ahead has sent what the other has not received yet. */
  ghost predicate QueuesOk(g: Config, i: nat, j: nat, toServer: seq<Msg>, toClient: seq<Msg>) {
    || (i <= j && toClient == Between(g, i, j) && toServer == [] && forall p :: i <= p < j && Present(g, p) ==> !FromClient(p))
    || (j <= i && toServer == Between(g, j, i) && toClient == [] && forall p :: j <= p < i && Present(g, p) ==> FromClient(p))
  }

  ghost predicate Inv(g: Config, s: State) {
    var i, j := ClientPlace(g, s.client.pc), ServerPlace(s.server.pc);
    && ClientOk(g, s.client, i) && ServerOk(g, s.server, j) && QueuesOk(g, i, j, s.toServer, s.toClient)
    && (s.client.failed ==> ClientRefuses(g, i) && i < j) && (s.server.failed ==> ServerRefuses(g, j))
  }

  /** Key exchange and signatures do what they are for, and the client's first message is a ClientHello. */
  ghost predicate Lawful(g: Config) {
    && g.client.hello.ClientHello?
    && (forall x: nat :: g.crypto.unwrap(g.crypto.wrap(x)) == Some(x))
    && (forall t: seq<Msg> :: g.crypto.check(Chosen(g), t, g.crypto.sign(t)))
  }

  lemma InitInv(g: Config)
    ensures Inv(g, Init())
  {
  }

  // ----- places ---------------------------------------------------------------------------------

  lemma {:induction false} SkipIs(g: Config, i: nat)
    requires i <= 16
    ensures var r := Skip(g, i); (r < 16 ==> Present(g, r)) && forall p :: i <= p < r ==> !Present(g, p)
    decreases 16 - i
  {
    hide Present;
    if i < 16 && !Present(g, i) { SkipIs(g, i + 1); }
  }

  lemma {:induction false} UptoSkip(g: Config, i: nat, r: nat)
    requires i <= r && forall p :: i <= p < r ==> !Present(g, p)
    ensures Upto(g, r) == Upto(g, i) && forall l: nat :: l <= i ==> Between(g, l, r) == Between(g, l, i)
    decreases r
  {
    hide Present;
    if i < r {
      UptoSkip(g, i, r - 1);
      forall l: nat | l <= i ensures Between(g, l, r) == Between(g, l, i) {
        assert Between(g, l, r - 1) + [] == Between(g, l, r - 1);
      }
    }
  }

  /** Past a used place. */
  lemma Pass(g: Config, i: nat)
    requires i < 16 && Present(g, i)
    ensures var r := Skip(g, i + 1);
            && i < r <= 16 && (r < 16 ==> Present(g, r)) && Upto(g, r) == Hashed(Upto(g, i), At(g, i))
            && (forall p :: i < p < r ==> !Present(g, p))
  {
    SkipIs(g, i + 1);
    UptoSkip(g, i + 1, Skip(g, i + 1));
    hide Present, At, Skip, Between;
  }

  /** ... the queue of messages gets one more. */
  lemma PassBetween(g: Config, l: nat, i: nat)
    requires l <= i < 16 && Present(g, i)
    ensures Between(g, l, Skip(g, i + 1)) == Between(g, l, i) + [At(g, i)]
  {
    SkipIs(g, i + 1);
    UptoSkip(g, i + 1, Skip(g, i + 1));
    hide Present, At, Skip, Upto;
    assert Between(g, l, i + 1) == Between(g, l, i) + [At(g, i)];
  }

  /** What is waiting begins with the message of the receiver's place. */
  lemma BetweenHead(g: Config, i: nat, j: nat)
    requires i < j <= 16 && Present(g, i) && (j < 16 ==> Present(g, j))
    ensures var r := Skip(g, i + 1); r <= j && Between(g, i, j) == [At(g, i)] + Between(g, r, j)
  {
    var r := Skip(g, i + 1);
    assert Between(g, i, i) == [];
    hide Present, At, Skip, Upto, Between;
    Pass(g, i);
    if j < 16 { assert r <= j; }
    PassBetween(g, i, i);
    var none: seq<Msg> := [];
    assert Between(g, i, r) == none + [At(g, i)] == [At(g, i)];
    BetweenSplit(g, i, r, j);
  }

  lemma {:induction false} BetweenSplit(g: Config, i: nat, r: nat, j: nat)
    requires i <= r <= j
    ensures Between(g, i, j) == Between(g, i, r) + Between(g, r, j)
    decreases j
  {
    hide Present, At;
    if r < j {
      BetweenSplit(g, i, r, j - 1);
    } else {
      assert Between(g, r, j) == [];
    }
  }

  /** The first two messages of a transcript are the hellos. */
  lemma {:induction false} Hellos(g: Config, i: nat)
    requires 2 <= i && g.client.hello.ClientHello?
    ensures |Upto(g, i)| >= 2 && Upto(g, i)[0] == g.client.hello && Upto(g, i)[1] == HelloBack(g)
    decreases i
  {
    if i > 2 {
      Hellos(g, i - 1);
      hide At, Present;
    } else {
      assert Upto(g, 0) == [];
      assert Upto(g, 1) == [g.client.hello];
    }
  }

  // ----- the queues -----------------------------------------------------------------------------

  lemma ClientQueuesSend(g: Config, i: nat, j: nat, toServer: seq<Msg>, toClient: seq<Msg>)
    requires QueuesOk(g, i, j, toServer, toClient) && i < 16 && Present(g, i) && FromClient(i) && j <= 16
    ensures QueuesOk(g, Skip(g, i + 1), j, toServer + [At(g, i)], toClient)
  {
    hide Present, At, Skip, FromClient, Upto;
    Pass(g, i);
    if j <= i { PassBetween(g, j, i); }
    assert Between(g, i, i) == [];
    assert j <= i && toServer == Between(g, j, i);
  }

  lemma ClientQueuesReceive(g: Config, i: nat, j: nat, toServer: seq<Msg>, toClient: seq<Msg>)
    requires QueuesOk(g, i, j, toServer, toClient) && i < 16 && Present(g, i) && j <= 16 && (j < 16 ==> Present(g, j)) && toClient != []
    ensures i < j && toClient[0] == At(g, i) && !FromClient(i) && QueuesOk(g, Skip(g, i + 1), j, toServer, toClient[1..])
  {
    assert Between(g, i, i) == [];
    BetweenHead(g, i, j);
    hide Present, At, Skip, FromClient, Upto;
    Pass(g, i);
    assert toClient[1..] == Between(g, Skip(g, i + 1), j);
  }

  lemma ServerQueuesSend(g: Config, i: nat, j: nat, toServer: seq<Msg>, toClient: seq<Msg>)
    requires QueuesOk(g, i, j, toServer, toClient) && j < 16 && Present(g, j) && !FromClient(j) && i <= 16
    ensures QueuesOk(g, i, Skip(g, j + 1), toServer, toClient + [At(g, j)])
  {
    hide Present, At, Skip, FromClient, Upto;
    Pass(g, j);
    if i <= j { PassBetween(g, i, j); }
    assert Between(g, j, j) == [];
    assert i <= j && toClient == Between(g, i, j);
  }

  lemma ServerQueuesReceive(g: Config, i: nat, j: nat, toServer: seq<Msg>, toClient: seq<Msg>)
    requires QueuesOk(g, i, j, toServer, toClient) && j < 16 && Present(g, j) && i <= 16 && (i < 16 ==> Present(g, i)) && toServer != []
    ensures toServer[0] == At(g, j) && FromClient(j) && QueuesOk(g, i, Skip(g, j + 1), toServer[1..], toClient)
  {
    assert Between(g, j, j) == [];
    BetweenHead(g, j, i);
    hide Present, At, Skip, FromClient, Upto;
    Pass(g, j);
    assert toServer[1..] == Between(g, Skip(g, j + 1), i);
  }

  // ----- each side follows the script -----------------------------------------------------------

  lemma ClientSentPlace(g: Config, c: Client, i: nat)
    requires ClientOk(g, c, i) && ClientSends(c.pc)
    ensures i < 16 && FromClient(i) && Skip(g, i + 1) == ClientPlace(g, ClientSent(c))
    ensures ClientSent(c).CSendCcs? ==> i == 8 || i == 9
  {
    hide Agreed, GoodReply, Params, Mark, Upto, Master;
  }

  lemma ClientOutIs(g: Config, c: Client, i: nat)
    requires ClientOk(g, c, i) && ClientSends(c.pc)
    ensures ClientOut(g.crypto, g.client, c) == At(g, i)
  {
    hide Upto, Skip, Master, Chosen, UsesTicket, UsesNpn, UsesOcsp, HelloBack;
  }

  lemma ClientSendOk(g: Config, c: Client, i: nat)
    requires ClientOk(g, c, i) && ClientSends(c.pc) && Lawful(g)
    ensures i < 16 && FromClient(i) && ClientOut(g.crypto, g.client, c) == At(g, i)
    ensures ClientOk(g, ClientSend(g.crypto, g.client, c), Skip(g, i + 1))
  {
    hide Upto, ClientOut, At, Skip, ClientSent, Chosen, ClientPlace, UsesTicket, UsesNpn, UsesOcsp, Present, FromClient;
    ClientSentPlace(g, c, i);
    ClientOutIs(g, c, i);
    ClientSendsWhen(g, c, i);
    Pass(g, i);
    if i >= 2 { Hellos(g, i); }
  }

  lemma ClientSendsWhen(g: Config, c: Client, i: nat)
    requires ClientOk(g, c, i) && ClientSends(c.pc)
    ensures i == 0 || i == 7 || i == 8 || i == 9 || i == 10 || i == 11 || i == 12
    ensures (c.pc.CSendVerify? <==> i == 9) && (c.pc.CSendFin? <==> i == 12)
    ensures var r := Skip(g, i + 1);
            i < r && (i == 0 ==> r == 1) && (i == 7 ==> r == 8) && (i == 8 ==> 9 <= r) && (i == 8 && r > 9 ==> !Present(g, 9)) && (i < 12 ==> r <= 12) && r <= 14
    ensures (i == 9 ==> Present(g, 9)) && (ClientSent(c).CSendCcs? <==> i < 10 <= Skip(g, i + 1))
  {
    hide Agreed, GoodReply, Params, Mark, Upto, Master, ClientOut;
  }

  /** The places where the client gives up, and why: a ServerHello that does not pass its tests, a certificate status,
      which it does not expect, a server chain it does not accept, or no way to answer a request for a certificate. */
  predicate ClientRefuses(g: Config, i: nat) {
    || (i == 1 && !GoodReply(g.client.hello, HelloBack(g)))
    || i == 3
    || (i == 2 && !(|g.server.chain| >= 2 && g.client.acceptServer(g.server.chain)))
    || (i == 5 && g.client.choose(g.server.authorities).None?)
  }

  lemma ClientGotPlace(g: Config, c: Client, i: nat)
    requires ClientOk(g, c, i) && ClientAwaits(c.pc)
    ensures i < 16 && !FromClient(i)
    ensures var r := ClientGot(g.crypto, g.client, c, At(g, i));
            (r.None? <==> ClientRefuses(g, i)) && (r.Some? ==> Skip(g, i + 1) == ClientPlace(g, r.value))
  {
    hide Upto, Master, Chosen, ClientGot, ClientRefuses, Agreed, GoodReply, HelloBack, Params, At, Skip, ClientPlace, Present;
    ClientTakesOrRefuses(g, c, i);
    ClientNextPlace(g, c, i);
  }

  lemma ClientTakesOrRefuses(g: Config, c: Client, i: nat)
    requires ClientOk(g, c, i) && ClientAwaits(c.pc)
    ensures ClientGot(g.crypto, g.client, c, At(g, i)).None? <==> ClientRefuses(g, i)
  {
    hide Upto, Master, Chosen, Agreed, GoodReply, Params, Mark;
  }

  lemma ClientNextPlace(g: Config, c: Client, i: nat)
    requires ClientOk(g, c, i) && ClientAwaits(c.pc)
    ensures i < 16 && !FromClient(i)
    ensures var r := ClientGot(g.crypto, g.client, c, At(g, i)); r.Some? ==> Skip(g, i + 1) == ClientPlace(g, r.value)
  {
    hide Upto, Master, Chosen, Agreed, GoodReply, HelloBack, Params, Mark;
  }

  /** Which message the client takes at which place. */
  lemma ClientTakesWhat(g: Config, c: Client, i: nat)
    requires ClientOk(g, c, i) && ClientAwaits(c.pc)
    ensures i < 16 && (i == 1 || i == 2 || i == 3 || i == 4 || i == 5 || i == 6 || i == 13 || i == 14 || i == 15)
    ensures (c.pc.CAwaitFin? <==> i == 15) && (At(g, i).ServerHello? <==> i == 1) && (i == 1 ==> At(g, i) == HelloBack(g))
    ensures (At(g, i).CertRequest? <==> i == 5) && (i == 5 ==> At(g, i).authorities == g.server.authorities && !g.server.auth.NoCert?)
    ensures var r := Skip(g, i + 1);
            i < r && (i == 1 ==> r == 2) && (i == 2 ==> 3 <= r) && (r > 5 && i < 5 ==> g.server.auth.NoCert?) && (i == 2 && r > 3 ==> !UsesOcsp(g))
            && (i < 7 ==> r <= 8) && (i == 15 <==> r == 16)
  {
    hide Agreed, GoodReply, Params, Mark, Upto, Master, Chosen, ClientGot;
  }

  lemma ClientReceiveOk(g: Config, c: Client, i: nat)
    requires ClientOk(g, c, i) && ClientAwaits(c.pc)
    ensures i < 16
    ensures var r := ClientGot(g.crypto, g.client, c, At(g, i));
            && (r.None? <==> ClientRefuses(g, i))
            && (r.Some? ==> ClientOk(g, ClientReceive(g.client, c, At(g, i), r.value), Skip(g, i + 1)))
  {
    assert HelloBack(g).suite == Agreed(g).suite && HelloBack(g).ticket == UsesTicket(g) && HelloBack(g).npn == UsesNpn(g);
    hide Upto, ClientGot, At, Skip, ClientPlace, UsesTicket, UsesNpn, UsesOcsp, Master, Present, HelloBack, Agreed, GoodReply;
    ClientGotPlace(g, c, i);
    ClientTakesWhat(g, c, i);
    Pass(g, i);
  }

  lemma ServerSentPlace(g: Config, s: Server, i: nat)
    requires ServerOk(g, s, i) && ServerSends(s.pc)
    ensures i < 16 && !FromClient(i) && Skip(g, i + 1) == ServerPlace(ServerSent(g.server, s))
  {
    hide Agreed, GoodReply, Mark, Upto, Master, Negotiate, HelloBack, Required, Chosen, ServerOut, At;
  }

  lemma ServerOutIs(g: Config, s: Server, i: nat)
    requires ServerOk(g, s, i) && ServerSends(s.pc)
    ensures ServerOut(g.crypto, g.server, s) == At(g, i)
  {
    hide Upto, Skip, Master, Chosen, UsesTicket, UsesNpn, UsesOcsp, Present, Mark;
  }

  lemma ServerSendsWhen(g: Config, s: Server, i: nat)
    requires ServerOk(g, s, i) && ServerSends(s.pc)
    ensures i < 16 && (i == 1 || i == 2 || i == 3 || i == 4 || i == 5 || i == 6 || i == 13 || i == 14 || i == 15)
    ensures s.pc.SSendFin? <==> i == 15
    ensures var r := Skip(g, i + 1);
            i < r && (i < 7 ==> r <= 8) && (i < 7 && r == 8 ==> g.server.auth.NoCert?) && (i == 15 <==> r == 16)
  {
    hide Agreed, GoodReply, Params, Mark, Upto, Master, Chosen, ServerSent;
  }

  lemma ServerSendOk(g: Config, s: Server, i: nat)
    requires ServerOk(g, s, i) && ServerSends(s.pc)
    ensures i < 16 && !FromClient(i) && ServerOut(g.crypto, g.server, s) == At(g, i)
    ensures ServerOk(g, ServerSend(g.crypto, g.server, s), Skip(g, i + 1))
  {
    hide Upto, ServerOut, At, Skip, ServerSent, ServerPlace, UsesTicket, UsesNpn, UsesOcsp, Master, Present, FromClient;
    ServerSentPlace(g, s, i);
    ServerOutIs(g, s, i);
    ServerSendsWhen(g, s, i);
    Pass(g, i);
  }

  /** The places where the server gives up: over the client's hello, or over the client's chain. */
  predicate ServerRefuses(g: Config, i: nat) {
    || (i == 0 && !Negotiated(g))
    || (i == 7 && ((Chosen(g) == [] && Required(g.server.auth)) || !g.server.accept(g.server.auth, Chosen(g))))
  }

  lemma ServerGotPlace(g: Config, s: Server, i: nat)
    requires ServerOk(g, s, i) && ServerAwaits(s.pc) && Lawful(g)
    ensures i < 16 && FromClient(i)
    ensures var r := ServerGot(g.crypto, g.server, s, At(g, i));
            (r.None? <==> ServerRefuses(g, i)) && (r.Some? ==> Skip(g, i + 1) == ServerPlace(r.value))
  {
    hide Upto, Master, ServerGot, ServerRefuses, Chosen, Lawful, Skip, At, UsesTicket, UsesNpn, UsesOcsp;
    ServerTakesOrRefuses(g, s, i);
    ServerNextPlace(g, s, i);
  }

  lemma ServerTakesOrRefuses(g: Config, s: Server, i: nat)
    requires ServerOk(g, s, i) && ServerAwaits(s.pc) && Lawful(g)
    ensures ServerGot(g.crypto, g.server, s, At(g, i)).None? <==> ServerRefuses(g, i)
  {
    hide Upto, Master, Skip, UsesTicket, UsesNpn, UsesOcsp;
  }

  lemma ServerNextPlace(g: Config, s: Server, i: nat)
    requires ServerOk(g, s, i) && ServerAwaits(s.pc)
    ensures var r := ServerGot(g.crypto, g.server, s, At(g, i)); r.Some? ==> Skip(g, i + 1) == ServerPlace(r.value)
  {
    hide Agreed, GoodReply, Params, Mark, Upto, Master, At;
  }

  lemma ServerTakesWhat(g: Config, s: Server, i: nat)
    requires ServerOk(g, s, i) && ServerAwaits(s.pc) && g.client.hello.ClientHello?
    ensures i == 0 || i == 7 || i == 8 || i == 9 || i == 10 || i == 11 || i == 12
    ensures (s.pc.SAwaitFin? <==> i == 12) && (s.pc.SAwaitVerify? <==> i == 9)
    ensures (At(g, i).ClientHello? <==> i == 0) && (i == 0 ==> At(g, i) == g.client.hello)
    ensures (At(g, i).Certificate? <==> i == 7) && (i == 7 ==> At(g, i).certs == Chosen(g))
    ensures (At(g, i).ClientKeyExchange? <==> i == 8) && (i == 8 ==> At(g, i).secret == g.crypto.wrap(g.client.premaster))
    ensures var r := Skip(g, i + 1);
            i < r && (i == 0 ==> r == 1) && (i == 7 ==> r == 8) && (i == 8 && r > 9 ==> !Present(g, 9)) && (i == 9 ==> Present(g, 9))
            && (i < 12 ==> r <= 12) && (i == 12 ==> r <= 14)
    ensures g.server.auth.NoCert? ==> Chosen(g) == []
    ensures i == 7 ==> !g.server.auth.NoCert?
  {
    hide Agreed, GoodReply, Params, Mark, Upto, Master, ServerGot;
  }

  lemma ServerReceiveOk(g: Config, s: Server, i: nat)
    requires ServerOk(g, s, i) && ServerAwaits(s.pc) && Lawful(g)
    ensures i < 16
    ensures var r := ServerGot(g.crypto, g.server, s, At(g, i));
            && (r.None? <==> ServerRefuses(g, i))
            && (r.Some? ==> ServerOk(g, ServerReceive(g.crypto, g.server, s, At(g, i), r.value), Skip(g, i + 1)))
  {
    assert g.crypto.unwrap(g.crypto.wrap(g.client.premaster)) == Some(g.client.premaster);
    hide Upto, ServerGot, At, Skip, ServerPlace, Chosen, Lawful, Present, FromClient, UsesTicket, UsesNpn, UsesOcsp, Required;
    ServerGotPlace(g, s, i);
    ServerTakesWhat(g, s, i);
    Pass(g, i);
    var r := ServerGot(g.crypto, g.server, s, At(g, i));
    if r.Some? {
      ServerMarks(g, s, i, At(g, i), r.value);
      ServerKeys(g, s, i, r.value);
      hide ServerReceive, Mark, Master;
      assert ServerReceive(g.crypto, g.server, s, At(g, i), r.value).transcript == Upto(g, Skip(g, i + 1)) by { ReceivedTranscript(g, s, i, At(g, i), r.value); }
    }
  }

  lemma ReceivedTranscript(g: Config, s: Server, i: nat, m: Msg, pc: ServerPc)
    ensures var r := ServerReceive(g.crypto, g.server, s, m, pc); r.pc == pc && r.transcript == Hashed(s.transcript, m)
  {
  }

  lemma ServerMarks(g: Config, s: Server, i: nat, m: Msg, pc: ServerPc)
    requires ServerOk(g, s, i) && (s.pc.SAwaitFin? <==> i == 12) && (s.pc.SAwaitVerify? <==> i == 9) && i <= 12
    requires i < Skip(g, i + 1) && (i < 12 ==> Skip(g, i + 1) <= 12) && (i == 12 ==> Skip(g, i + 1) <= 14)
    requires (i < 9 && Skip(g, i + 1) > 9 ==> !Present(g, 9)) && (i == 9 ==> Present(g, 9))
    ensures var s', r := ServerReceive(g.crypto, g.server, s, m, pc), Skip(g, i + 1);
            && s'.verifyAt == Mark(g, r > 9 && Present(g, 9), 9) && s'.clientFinAt == Mark(g, r > 12, 12)
            && s'.serverFinAt == Mark(g, r > 15, 15)
  {
    hide Upto, Skip, ServerPlace, Chosen, Present, UsesTicket, UsesNpn, UsesOcsp, Required, Hashed;
  }

  lemma ServerKeys(g: Config, s: Server, i: nat, pc: ServerPc)
    requires ServerOk(g, s, i) && ServerAwaits(s.pc) && Lawful(g) && i <= 12
    ensures var s' := ServerReceive(g.crypto, g.server, s, At(g, i), pc);
            && (i > 0 || Negotiated(g) ==> s'.terms == Agreed(g))
            && s'.chain == (if i >= 7 then Chosen(g) else []) && (i >= 8 ==> s'.master == Master(g))
  {
    assert g.crypto.unwrap(g.crypto.wrap(g.client.premaster)) == Some(g.client.premaster);
    hide Upto, At, Skip, Chosen, Lawful, Present, UsesTicket, UsesNpn, UsesOcsp, Required, Mark, ServerReceive, Master;
    ServerTakesWhat(g, s, i);
    if i >= 2 { Hellos(g, i); }
    ServerFlags(g, s, At(g, i), pc);
    ServerSecrets(g, s, At(g, i), pc);
    hide ServerOk, ServerAwaits;
  }

  lemma ServerFlags(g: Config, s: Server, m: Msg, pc: ServerPc)
    requires g.client.hello.ClientHello?
    ensures var r := ServerReceive(g.crypto, g.server, s, m, pc);
            if m.ClientHello? then m == g.client.hello && Negotiated(g) ==> r.terms == Agreed(g) else r.terms == s.terms
  {
    hide Hashed, Negotiate;
  }

  lemma ServerSecrets(g: Config, s: Server, m: Msg, pc: ServerPc)
    ensures var r := ServerReceive(g.crypto, g.server, s, m, pc);
            && r.chain == (if m.Certificate? then m.certs else s.chain)
            && (!m.ClientKeyExchange? ==> r.master == s.master)
            && (m.ClientKeyExchange? && g.crypto.unwrap(m.secret) == Some(g.client.premaster) && s.transcript[..Min(2, |s.transcript|)] == [g.client.hello, HelloBack(g)] ==>
                  r.master == Master(g))
  {
    hide Hashed, HelloBack;
  }

  // ----- every run ------------------------------------------------------------------------------

  lemma ClientNotFailing(g: Config, c: Client, m: Msg, pc: ClientPc)
    ensures ClientSend(g.crypto, g.client, c).failed == c.failed && ClientReceive(g.client, c, m, pc).failed == c.failed
  {
    hide ClientOut, ClientSent, Hashed;
  }

  lemma ServerNotFailing(g: Config, s: Server, m: Msg, pc: ServerPc)
    ensures ServerSend(g.crypto, g.server, s).failed == s.failed && ServerReceive(g.crypto, g.server, s, m, pc).failed == s.failed
  {
    hide ServerOut, ServerSent, Hashed;
  }

  lemma ClientInv(g: Config, s: State)
    requires Inv(g, s) && Lawful(g)
    ensures Inv(g, DoClient(g, s))
  {
    hide Upto, At, Skip, Present, Lawful, FromClient, ClientSend, ClientReceive, ClientOut, ClientGot, ClientRefuses, ServerRefuses, Between, Master, QueuesOk;
    var i, j := ClientPlace(g, s.client.pc), ServerPlace(s.server.pc);
    ClientParts(g, s.client, i);
    ServerParts(g, s.server, j);
    if !s.client.failed && ClientSends(s.client.pc) {
      ClientNotFailing(g, s.client, HelloDone, CDone);
      ClientSendOk(g, s.client, i);
      ClientQueuesSend(g, i, j, s.toServer, s.toClient);
      ClientParts(g, ClientSend(g.crypto, g.client, s.client), Skip(g, i + 1));
      hide ClientOk, ServerOk, ClientPlace, ServerPlace;
    } else if !s.client.failed && ClientAwaits(s.client.pc) && s.toClient != [] {
      ClientReceiveOk(g, s.client, i);
      ClientQueuesReceive(g, i, j, s.toServer, s.toClient);
      var r := ClientGot(g.crypto, g.client, s.client, s.toClient[0]);
      if r.Some? { ClientNotFailing(g, s.client, s.toClient[0], r.value); ClientParts(g, ClientReceive(g.client, s.client, s.toClient[0], r.value), Skip(g, i + 1)); }
      hide ServerOk, ClientPlace, ServerPlace;
    }
  }

  lemma ClientParts(g: Config, c: Client, i: nat)
    ensures ClientOk(g, c, i) ==> i == ClientPlace(g, c.pc) <= 16 && (i < 16 ==> Present(g, i))
    ensures forall f: bool :: ClientOk(g, c.(failed := f), i) == ClientOk(g, c, i)
  {
    hide Upto, Master, Skip, Present, Chosen;
  }

  lemma ServerParts(g: Config, s: Server, j: nat)
    ensures ServerOk(g, s, j) ==> j == ServerPlace(s.pc) <= 16 && (j < 16 ==> Present(g, j))
    ensures forall f: bool :: ServerOk(g, s.(failed := f), j) == ServerOk(g, s, j)
  {
    hide Upto, Master, Skip, Present, Chosen;
  }

  lemma ServerInv(g: Config, s: State)
    requires Inv(g, s) && Lawful(g)
    ensures Inv(g, DoServer(g, s))
  {
    hide Upto, At, Skip, Present, Lawful, FromClient, ServerSend, ServerReceive, ServerOut, ServerGot, ClientRefuses, ServerRefuses, Between, Master, QueuesOk;
    var i, j := ClientPlace(g, s.client.pc), ServerPlace(s.server.pc);
    ClientParts(g, s.client, i);
    ServerParts(g, s.server, j);
    if !s.server.failed && ServerSends(s.server.pc) {
      ServerNotFailing(g, s.server, HelloDone, SDone);
      ServerSendOk(g, s.server, j);
      ServerQueuesSend(g, i, j, s.toServer, s.toClient);
      ServerParts(g, ServerSend(g.crypto, g.server, s.server), Skip(g, j + 1));
      hide ClientOk, ServerOk, ClientPlace, ServerPlace;
    } else if !s.server.failed && ServerAwaits(s.server.pc) && s.toServer != [] {
      ServerReceiveOk(g, s.server, j);
      ServerQueuesReceive(g, i, j, s.toServer, s.toClient);
      var r := ServerGot(g.crypto, g.server, s.server, s.toServer[0]);
      if r.Some? { ServerNotFailing(g, s.server, s.toServer[0], r.value); ServerParts(g, ServerReceive(g.crypto, g.server, s.server, s.toServer[0], r.value), Skip(g, j + 1)); }
      hide ClientOk, ClientPlace, ServerPlace;
    }
  }

  lemma {:induction false} ExecInv(g: Config, s: State, acts: seq<Action>)
    requires Inv(g, s) && Lawful(g)
    ensures Inv(g, Exec(g, s, acts))
    decreases |acts|
  {
    if acts != [] {
      ClientInv(g, s);
      ServerInv(g, s);
      hide Inv, DoClient, DoServer;
      ExecInv(g, Do(g, s, acts[0]), acts[1..]);
    }
  }

  // ----- main results ---------------------------------------------------------------------------

  /** A state that some interleaving of the two programs reaches. */
  ghost predicate Reachable(g: Config, s: State) {
    exists acts: seq<Action> :: s == Exec(g, Init(), acts)
  }

  lemma ReachableInv(g: Config, s: State)
    requires Reachable(g, s) && Lawful(g)
    ensures Inv(g, s)
  {
    var acts: seq<Action> :| s == Exec(g, Init(), acts);
    InitInv(g);
    ExecInv(g, Init(), acts);
  }

  predicate Agree(a: Option<seq<Msg>>, b: Option<seq<Msg>>) {
    a.Some? && b.Some? ==> a == b
  }

  /** At every moment of every run: what both have hashed for CertificateVerify, for the client's Finished and for the
      server's Finished is the same sequence of messages. */
  lemma SameTranscripts(g: Config, s: State)
    requires Reachable(g, s) && Lawful(g)
    ensures Agree(s.client.verifyAt, s.server.verifyAt)
    ensures Agree(s.client.clientFinAt, s.server.clientFinAt) && Agree(s.client.serverFinAt, s.server.serverFinAt)
  {
    ReachableInv(g, s);
    hide Upto, Skip, Present, Master, QueuesOk;
  }

  /** When both have finished they have hashed the same messages at all three places, and with the same master secret:
      the two verify_data values agree. */
  lemma BothFinished(g: Config, s: State)
    requires Reachable(g, s) && Lawful(g) && s.client.pc.CDone? && s.server.pc.SDone?
    ensures s.client.transcript == s.server.transcript && s.client.master == s.server.master
    ensures s.client.clientFinAt.Some? && s.client.clientFinAt == s.server.clientFinAt
    ensures s.client.serverFinAt.Some? && s.client.serverFinAt == s.server.serverFinAt && s.client.verifyAt == s.server.verifyAt
    ensures forall fromClient: bool, t: seq<Msg> ::
              g.crypto.verifyData(s.client.master, fromClient, t) == g.crypto.verifyData(s.server.master, fromClient, t)
    ensures s.client.verifyAt.Some? <==> !g.server.auth.NoCert? && Chosen(g) != []
  {
    ReachableInv(g, s);
    DoneFacts(g, s);
    hide Inv, Reachable, Lawful;
  }

  lemma DoneFacts(g: Config, s: State)
    requires Inv(g, s) && s.client.pc.CDone? && s.server.pc.SDone?
    ensures s.client.transcript == Upto(g, 16) == s.server.transcript && s.client.master == Master(g) == s.server.master
    ensures s.client.clientFinAt == Some(Upto(g, 12)) == s.server.clientFinAt && s.client.serverFinAt == Some(Upto(g, 15)) == s.server.serverFinAt
    ensures s.client.verifyAt == Mark(g, Present(g, 9), 9) == s.server.verifyAt && (Present(g, 9) <==> Chosen(g) != [])
    ensures Chosen(g) != [] ==> !g.server.auth.NoCert?
  {
    hide Upto, Skip, Master, QueuesOk, UsesTicket, UsesNpn, UsesOcsp;
  }

  // ----- negotiation ----------------------------------------------------------------------------

  lemma {:induction false} FirstInIs(prefer: seq<nat>, supported: seq<nat>)
    ensures var r := FirstIn(prefer, supported);
            && (r.None? <==> forall id :: id in prefer ==> id !in supported)
            && (r.Some? ==> exists k :: 0 <= k < |prefer| && prefer[k] == r.value && r.value in supported && forall j :: 0 <= j < k ==> prefer[j] !in supported)
  {
    if prefer != [] && prefer[0] !in supported {
      FirstInIs(prefer[1..], supported);
      var r := FirstIn(prefer[1..], supported);
      if r.Some? {
        var k :| 0 <= k < |prefer[1..]| && prefer[1..][k] == r.value && r.value in supported && forall j :: 0 <= j < k ==> prefer[1..][j] !in supported;
        assert prefer[k + 1] == r.value;
        forall j | 0 <= j < k + 1 ensures prefer[j] !in supported { if j > 0 { assert prefer[1..][j - 1] == prefer[j]; } }
      } else {
        forall id | id in prefer ensures id !in supported { if id != prefer[0] { assert id in prefer[1..]; } }
      }
    }
  }

  lemma {:induction false} KnownOfIs(ids: seq<nat>, id: nat)
    ensures id in KnownOf(ids) <==> id in ids && Known(id)
  {
    if ids != [] { KnownOfIs(ids[1..], id); }
  }

  /** A suite of both sides that the code knows. */
  predicate Common(sc: ServerConfig, hello: Msg, id: nat) {
    hello.ClientHello? && id in hello.suites && id in sc.suites && Known(id)
  }

  lemma PickIs(sc: ServerConfig, hello: Msg)
    requires hello.ClientHello?
    ensures var r := PickSuite(sc, hello.suites);
            (r.Some? ==> Common(sc, hello, r.value)) && (r.None? ==> forall id :: !Common(sc, hello, id))
  {
    forall id ensures id in KnownOf(hello.suites) <==> id in hello.suites && Known(id) { KnownOfIs(hello.suites, id); }
    forall id ensures id in KnownOf(sc.suites) <==> id in sc.suites && Known(id) { KnownOfIs(sc.suites, id); }
    hide Known;
    if sc.preferOwn { FirstInIs(sc.suites, KnownOf(hello.suites)); } else { FirstInIs(hello.suites, KnownOf(sc.suites)); }
  }

  /** The server's choice is a suite of both sides, and no common suite comes before it in the list that has precedence. */
  lemma ChosenSuite(sc: ServerConfig, hello: Msg)
    requires Negotiate(sc, hello).Some?
    ensures var s, list := Negotiate(sc, hello).value.suite, if sc.preferOwn then sc.suites else hello.suites;
            && Common(sc, hello, s)
            && exists k :: 0 <= k < |list| && list[k] == s && forall j :: 0 <= j < k ==> !Common(sc, hello, list[j])
  {
    PickIs(sc, hello);
    var list, other := if sc.preferOwn then sc.suites else hello.suites, if sc.preferOwn then hello.suites else sc.suites;
    forall id ensures id in KnownOf(other) <==> id in other && Known(id) { KnownOfIs(other, id); }
    FirstInIs(list, KnownOf(other));
    var s := Negotiate(sc, hello).value.suite;
    var k :| 0 <= k < |list| && list[k] == s && s in KnownOf(other) && forall j :: 0 <= j < k ==> list[j] !in KnownOf(other);
    forall j | 0 <= j < k ensures !Common(sc, hello, list[j]) { assert list[j] !in KnownOf(other); }
  }

  /** When the server accepts a hello, told from the two configurations. */
  ghost predicate Negotiable(sc: ServerConfig, hello: Msg) {
    && hello.ClientHello? && sc.minVers <= hello.vers && 0 in hello.compressions && hello.renegotiation == [] && |sc.chain| >= 2
    && (exists id :: Common(sc, hello, id)) && !(Fallback in hello.suites && hello.vers < sc.maxVers)
  }

  lemma NegotiateIff(sc: ServerConfig, hello: Msg)
    ensures Negotiate(sc, hello).Some? <==> Negotiable(sc, hello)
  {
    if hello.ClientHello? { PickIs(sc, hello); }
    hide PickSuite, Common;
  }

  /** Of the client's tests of a ServerHello only the one of the version can fail with a server of this code: the others,
      on the suite, the compression, the renegotiation data and the two protocol extensions, never fire. */
  lemma OnlyVersion(sc: ServerConfig, hello: Msg)
    requires Negotiate(sc, hello).Some?
    ensures GoodReply(hello, Reply(sc, Negotiate(sc, hello).value)) <==> Version(sc, hello.vers) == GmSsl
  {
    PickIs(sc, hello);
    hide PickSuite, FirstIn;
  }

  /** When both have finished they have agreed on a suite of both lists and on the version. */
  lemma SameSuite(g: Config, s: State)
    requires Reachable(g, s) && Lawful(g) && s.client.pc.CDone? && s.server.pc.SDone?
    ensures s.client.suite == s.server.terms.suite && Common(g.server, g.client.hello, s.client.suite)
    ensures s.server.terms.vers == GmSsl && s.client.npn == s.server.terms.npn && s.client.ticket == s.server.terms.ticket
  {
    ReachableInv(g, s);
    assert Negotiated(g) && s.server.terms == Agreed(g) && s.client.suite == Agreed(g).suite && GoodReply(g.client.hello, HelloBack(g))
           && s.client.npn == UsesNpn(g) && s.client.ticket == UsesTicket(g) by {
      hide Upto, Skip, Present, Master, QueuesOk, Negotiate, GoodReply, HelloBack;
    }
    hide Inv, Reachable, Lawful;
    OnlyVersion(g.server, g.client.hello);
    PickIs(g.server, g.client.hello);
  }

  // ----- when a side gives up -------------------------------------------------------------------

  /** The server's tests of the client's chain. */
  predicate ClientChainOk(g: Config) {
    !g.server.auth.NoCert? ==> !(Chosen(g) == [] && Required(g.server.auth)) && g.server.accept(g.server.auth, Chosen(g))
  }

  /** A side that gives up does so over the hellos or over certificates: the server over a hello it cannot negotiate with or a
      client chain it does not accept; the client over the version, a certificate status, a server chain it does not accept,
      or a request for a certificate it cannot answer. Never because of a Finished, a signature, a key exchange, the chosen
      suite or an unexpected order of messages. */
  lemma OnlyRefusals(g: Config, s: State)
    requires Reachable(g, s) && Lawful(g)
    ensures s.client.failed ==>
              Negotiable(g.server, g.client.hello)
              && (Version(g.server, g.client.hello.vers) != GmSsl || UsesOcsp(g) || !g.client.acceptServer(g.server.chain)
                  || (!g.server.auth.NoCert? && g.client.choose(g.server.authorities).None?))
    ensures s.server.failed ==> !Negotiable(g.server, g.client.hello) || !ClientChainOk(g)
  {
    ReachableInv(g, s);
    Refused(g, s);
    NegotiateIff(g.server, g.client.hello);
    if Negotiated(g) { OnlyVersion(g.server, g.client.hello); }
    hide Reachable, Inv, Negotiate, GoodReply, Negotiable;
  }

  lemma Refused(g: Config, s: State)
    requires Inv(g, s)
    ensures s.client.failed ==>
              Negotiated(g) && (!GoodReply(g.client.hello, HelloBack(g)) || UsesOcsp(g) || !g.client.acceptServer(g.server.chain)
                                || (!g.server.auth.NoCert? && g.client.choose(g.server.authorities).None?))
    ensures s.server.failed ==> !Negotiated(g) || !ClientChainOk(g)
  {
    hide Upto, Skip, Master, QueuesOk, Negotiate, GoodReply, HelloBack, Params, Mark;
    var i, j := ClientPlace(g, s.client.pc), ServerPlace(s.server.pc);
    assert ClientOk(g, s.client, i) && ServerOk(g, s.server, j);
    if s.client.failed && Negotiated(g) && i == 2 { ChainLongEnough(g); }
  }

  lemma ChainLongEnough(g: Config)
    requires Negotiated(g)
    ensures |g.server.chain| >= 2
  {
  }

  /** What has to hold for the handshake to go through. A hello that asks for a certificate status must not get one: the
      client has no place for the message. */
  ghost predicate Acceptable(g: Config) {
    && Negotiable(g.server, g.client.hello) && Version(g.server, g.client.hello.vers) == GmSsl
    && !(g.client.hello.ocsp && g.server.staple.Some?) && g.client.acceptServer(g.server.chain)
    && (!g.server.auth.NoCert? ==> g.client.choose(g.server.authorities).Some?) && ClientChainOk(g)
  }

  /** The hello of `makeClientHelloGM` and `clientHandshake`: of the suites configured those the code knows, no compression,
      no protocols and no status request. */
  function OwnHello(random: nat, suites: seq<nat>, ticket: bool): Msg {
    ClientHello(random, GmSsl, KnownOf(suites), [0], [], [], ticket, false, false)
  }

  /** With a client of this code nothing else can go wrong than: no version or no suite in common, or certificates. It never
      asks for a certificate status. */
  lemma OwnClientIff(g: Config, random: nat, suites: seq<nat>, ticket: bool)
    requires g.client.hello == OwnHello(random, suites, ticket)
    ensures !UsesOcsp(g) && !UsesNpn(g)
    ensures Acceptable(g) <==>
              && g.server.minVers <= GmSsl <= g.server.maxVers
              && (exists id :: id in suites && id in g.server.suites && Known(id))
              && |g.server.chain| >= 2 && g.client.acceptServer(g.server.chain)
              && (!g.server.auth.NoCert? ==> g.client.choose(g.server.authorities).Some?) && ClientChainOk(g)
  {
    forall id ensures Common(g.server, g.client.hello, id) <==> id in suites && id in g.server.suites && Known(id) { KnownOfIs(suites, id); }
    KnownOfIs(suites, Fallback);
    hide ClientChainOk;
  }

  ghost predicate AtRest(g: Config, s: State) {
    DoClient(g, s) == s && DoServer(g, s) == s
  }

  /** Where nothing moves any more, both have finished or one has given up. */
  lemma RestMeansOver(g: Config, s: State)
    requires Inv(g, s) && Lawful(g) && AtRest(g, s)
    ensures s.client.failed || s.server.failed || (s.client.pc.CDone? && s.server.pc.SDone?)
  {
    hide Upto, At, Skip, Lawful, ClientOut, ServerOut, Master, ClientReceive, ServerReceive, Present, FromClient, Between, QueuesOk;
    if !s.client.failed && !s.server.failed {
      var i, j := ClientPlace(g, s.client.pc), ServerPlace(s.server.pc);
      ClientParts(g, s.client, i);
      ServerParts(g, s.server, j);
      ClientStuck(g, s);
      ServerStuck(g, s);
      assert (s.client.pc.CDone? ==> i == 16) && (s.server.pc.SDone? ==> j == 16);
      hide DoClient, DoServer, ClientPlace, ServerPlace;
      if ClientAwaits(s.client.pc) { ClientGotPlace(g, s.client, i); }
      if ServerAwaits(s.server.pc) { ServerGotPlace(g, s.server, j); }
      hide ClientOk, ServerOk;
      EmptyQueues(g, i, j, s.toServer, s.toClient);
    }
  }

  lemma ClientStuck(g: Config, s: State)
    requires !s.client.failed && DoClient(g, s) == s
    ensures s.client.pc.CDone? || (ClientAwaits(s.client.pc) && s.toClient == [])
  {
    hide ClientOut, ClientReceive, ClientGot, ClientSent, Hashed;
    assert ClientSends(s.client.pc) ==> |DoClient(g, s).toServer| == |s.toServer| + 1;
  }

  lemma ServerStuck(g: Config, s: State)
    requires !s.server.failed && DoServer(g, s) == s
    ensures s.server.pc.SDone? || (ServerAwaits(s.server.pc) && s.toServer == [])
  {
    hide ServerOut, ServerReceive, ServerGot, ServerSent, Hashed;
    assert ServerSends(s.server.pc) ==> |DoServer(g, s).toClient| == |s.toClient| + 1;
  }

  /** With nothing on the way both sides are at the same place. */
  lemma EmptyQueues(g: Config, i: nat, j: nat, toServer: seq<Msg>, toClient: seq<Msg>)
    requires QueuesOk(g, i, j, toServer, toClient) && i <= 16 && j <= 16 && (i < 16 ==> Present(g, i)) && (j < 16 ==> Present(g, j))
    ensures toServer == [] && toClient == [] ==> i == j
    ensures i < j ==> toClient != []
    ensures j < i ==> toServer != []
  {
    if i < j { BetweenHead(g, i, j); }
    if j < i { BetweenHead(g, j, i); }
    hide Between, Present, Skip, At, FromClient;
  }

  function Left(place: nat, failed: bool): nat {
    (if place <= 16 then 16 - place else 0) + if failed then 0 else 1
  }

  function Measure(g: Config, s: State): nat {
    Left(ClientPlace(g, s.client.pc), s.client.failed) + Left(ServerPlace(s.server.pc), s.server.failed)
  }

  lemma ClientMoves(g: Config, s: State)
    requires Inv(g, s) && Lawful(g) && DoClient(g, s) != s
    ensures Measure(g, DoClient(g, s)) < Measure(g, s)
  {
    hide Upto, At, Present, Lawful, FromClient, ClientSend, ClientReceive, ClientOut, ClientGot, ClientRefuses, Between, Master, QueuesOk, Skip;
    var i, j := ClientPlace(g, s.client.pc), ServerPlace(s.server.pc);
    ClientParts(g, s.client, i);
    ServerParts(g, s.server, j);
    if ClientSends(s.client.pc) {
      ClientNotFailing(g, s.client, HelloDone, CDone);
      ClientSendOk(g, s.client, i);
      ClientParts(g, ClientSend(g.crypto, g.client, s.client), Skip(g, i + 1));
    } else {
      ClientReceiveOk(g, s.client, i);
      ClientQueuesReceive(g, i, j, s.toServer, s.toClient);
      var r := ClientGot(g.crypto, g.client, s.client, s.toClient[0]);
      if r.Some? {
        ClientNotFailing(g, s.client, s.toClient[0], r.value);
        ClientParts(g, ClientReceive(g.client, s.client, s.toClient[0], r.value), Skip(g, i + 1));
      }
    }
    hide ClientOk, ServerOk, ClientPlace, ServerPlace;
  }

  lemma ServerMoves(g: Config, s: State)
    requires Inv(g, s) && Lawful(g) && DoServer(g, s) != s
    ensures Measure(g, DoServer(g, s)) < Measure(g, s)
  {
    hide Upto, At, Present, Lawful, FromClient, ServerSend, ServerReceive, ServerOut, ServerGot, ServerRefuses, Between, Master, QueuesOk, Skip;
    var i, j := ClientPlace(g, s.client.pc), ServerPlace(s.server.pc);
    ClientParts(g, s.client, i);
    ServerParts(g, s.server, j);
    if ServerSends(s.server.pc) {
      ServerNotFailing(g, s.server, HelloDone, SDone);
      ServerSendOk(g, s.server, j);
      ServerParts(g, ServerSend(g.crypto, g.server, s.server), Skip(g, j + 1));
    } else {
      ServerReceiveOk(g, s.server, j);
      ServerQueuesReceive(g, i, j, s.toServer, s.toClient);
      var r := ServerGot(g.crypto, g.server, s.server, s.toServer[0]);
      if r.Some? {
        ServerNotFailing(g, s.server, s.toServer[0], r.value);
        ServerParts(g, ServerReceive(g.crypto, g.server, s.server, s.toServer[0], r.value), Skip(g, j + 1));
      }
    }
    hide ClientOk, ServerOk, ClientPlace, ServerPlace;
  }

  /** Where the run is over it has succeeded exactly if the configurations are acceptable. */
  lemma OverMeans(g: Config, s: State)
    requires Inv(g, s) && (s.client.failed || s.server.failed || (s.client.pc.CDone? && s.server.pc.SDone?))
    ensures s.client.pc.CDone? && s.server.pc.SDone? && !s.client.failed && !s.server.failed <==> Acceptable(g)
  {
    NegotiateIff(g.server, g.client.hello);
    if Negotiated(g) { OnlyVersion(g.server, g.client.hello); }
    Refused(g, s);
    if s.client.pc.CDone? && s.server.pc.SDone? { Succeeded(g, s); }
    assert Negotiated(g) ==> (UsesOcsp(g) <==> g.client.hello.ocsp && g.server.staple.Some?);
    hide Inv, Negotiate, GoodReply, Negotiable, UsesOcsp;
  }

  lemma Succeeded(g: Config, s: State)
    requires Inv(g, s) && s.client.pc.CDone? && s.server.pc.SDone?
    ensures Negotiated(g) && GoodReply(g.client.hello, HelloBack(g)) && !UsesOcsp(g) && g.client.acceptServer(g.server.chain)
    ensures (!g.server.auth.NoCert? ==> g.client.choose(g.server.authorities).Some?) && ClientChainOk(g)
    ensures !s.client.failed && !s.server.failed
  {
    hide Upto, Skip, Master, QueuesOk, Negotiate, GoodReply, HelloBack, Params, Mark;
    assert ClientOk(g, s.client, 16) && ServerOk(g, s.server, 16);
  }

  /** The steps of a schedule that are not waiting. */
  function Moves(g: Config, s: State, acts: seq<Action>): nat
    decreases |acts|
  {
    if acts == [] then 0
    else (if Do(g, s, acts[0]) == s then 0 else 1) + Moves(g, Do(g, s, acts[0]), acts[1..])
  }

  lemma DoMoves(g: Config, s: State, a: Action)
    requires Inv(g, s) && Lawful(g)
    ensures Inv(g, Do(g, s, a)) && (if Do(g, s, a) == s then 0 else 1) + Measure(g, Do(g, s, a)) <= Measure(g, s)
  {
    hide Inv, Lawful, DoClient, DoServer, Measure;
    if a.ClientStep? {
      ClientInv(g, s);
      if DoClient(g, s) != s { ClientMoves(g, s); }
    } else {
      ServerInv(g, s);
      if DoServer(g, s) != s { ServerMoves(g, s); }
    }
  }

  /** Every run ends, whichever side moves next: no schedule has more than Measure steps that move, and where a
      schedule has brought both sides to rest they have finished exactly if the configurations are acceptable. */
  lemma {:induction false} EveryRunEnds(g: Config, s: State, acts: seq<Action>)
    requires Inv(g, s) && Lawful(g)
    ensures var r := Exec(g, s, acts);
            && Inv(g, r) && Moves(g, s, acts) + Measure(g, r) <= Measure(g, s)
            && (AtRest(g, r) ==> (r.client.pc.CDone? && r.server.pc.SDone? && !r.client.failed && !r.server.failed <==> Acceptable(g)))
    decreases |acts|
  {
    hide Inv, Lawful, Do, Measure, Acceptable;
    if acts == [] {
      if AtRest(g, s) {
        RestMeansOver(g, s);
        OverMeans(g, s);
      }
    } else {
      DoMoves(g, s, acts[0]);
      EveryRunEnds(g, Do(g, s, acts[0]), acts[1..]);
    }
  }

  /** As long as one side can move, a schedule can be continued; so there is one that brings both to rest. */
  lemma {:induction false} RunsToTheEnd(g: Config, s: State) returns (acts: seq<Action>)
    requires Inv(g, s) && Lawful(g)
    ensures |acts| <= Measure(g, s) && AtRest(g, Exec(g, s, acts))
    decreases Measure(g, s)
  {
    hide Inv, Lawful, DoClient, DoServer, Measure;
    if AtRest(g, s) {
      acts := [];
    } else {
      var a := if DoClient(g, s) != s then ClientStep else ServerStep;
      DoMoves(g, s, a);
      var rest := RunsToTheEnd(g, Do(g, s, a));
      acts := [a] + rest;
      assert acts[1..] == rest;
    }
  }
}
