/** Authorization contexts and the handles they can be found by. */
module AuthDocuments {
  import opened Wrappers

  /** The largest number of distinct clients that may redeem one code. */
  const MAX_PRE_AUTH_REDEEMERS := 10
  /** The number of transaction-code attempts one code allows. */
  const MAX_TX_CODE_ATTEMPTS := 5
  const MAX_THUMBPRINT_LENGTH := 128

  /** A DCQL query: its text with the number literals taken out, and the literals. */
  datatype Dcql = Dcql(shape: string, numbers: seq<real>)

  datatype Token = Token(accessToken: string, expiresAt: int)

  /** A stored context. `rest` stands for the fields no store operation reads
      or writes one by one; a zero `createdAt` is the unset time. */
  datatype Doc = Doc(
    sessionID: string,
    createdAt: int,
    expiresAt: int,
    requestURI: string,
    code: string,
    state: string,
    verifierResponseCode: string,
    ephemeralKeyID: string,
    requestObjectID: string,
    authSession: string,
    issuerState: string,
    token: Option<Token>,
    accessToken: string,
    refreshToken: string,
    forfeited: bool,
    redeemedBy: seq<string>,
    txCodeAttempts: int,
    consent: bool,
    authenticSource: string,
    identifier: string,
    authProvider: string,
    dataSource: string,
    remoteName: string,
    dpopThumbprint: string,
    walletClientID: string,
    walletURI: string,
    codeChallenge: string,
    codeChallengeMethod: string,
    dcqlQuery: Option<Dcql>,
    rest: int)

  datatype ProviderFields = ProviderFields(authProvider: string, dataSource: string, remoteName: string, authenticSource: string)

  /** The exchange that takes the place of a one-shot issuer_state. */
  datatype Resume = Resume(
    authSession: string,
    dpopThumbprint: string,
    walletClientID: string,
    walletURI: string,
    codeChallenge: string,
    codeChallengeMethod: string,
    dcqlQuery: Option<Dcql>,
    ephemeralKeyID: string,
    expiresAt: int,
    createdAt: int)

  function ApplyResume(r: Resume, d: Doc): Doc {
    d.(authSession := r.authSession,
       dpopThumbprint := r.dpopThumbprint,
       walletClientID := r.walletClientID,
       walletURI := r.walletURI,
       codeChallenge := r.codeChallenge,
       codeChallengeMethod := r.codeChallengeMethod,
       dcqlQuery := r.dcqlQuery,
       ephemeralKeyID := r.ephemeralKeyID,
       expiresAt := r.expiresAt,
       createdAt := r.createdAt)
  }

  // ----- what the targeted operations write -----

  function Max(a: int, b: int): int {
    if a >= b then a else b
  }

  function Spent(d: Doc): Doc {
    d.(forfeited := true)
  }

  function RedeemedAlso(d: Doc, thumbprint: string): Doc {
    d.(redeemedBy := d.redeemedBy + [thumbprint])
  }

  function Counted(d: Doc): Doc {
    d.(txCodeAttempts := d.txCodeAttempts + 1)
  }

  function ExtendedTo(d: Doc, expiresAt: int): Doc {
    d.(expiresAt := Max(d.expiresAt, expiresAt))
  }

  function Consented(d: Doc): Doc {
    d.(consent := true)
  }

  function WithToken(d: Doc, token: Option<Token>): Doc {
    d.(token := token)
  }

  function FromSource(d: Doc, source: string): Doc {
    d.(authenticSource := source)
  }

  function Identified(d: Doc, identifier: string): Doc {
    d.(identifier := identifier)
  }

  function ServedBy(d: Doc, f: ProviderFields): Doc {
    d.(authProvider := f.authProvider, dataSource := f.dataSource, remoteName := f.remoteName,
       authenticSource := f.authenticSource)
  }

  /** The document after its auth_session has been claimed. */
  function Claimed(d: Doc): Doc {
    d.(authSession := "")
  }

  /** The document after its issuer_state has been taken off. */
  function Unprepared(d: Doc): Doc {
    d.(issuerState := "")
  }

  // ----- handles -----

  datatype Kind =
    | RequestURI | Code | State | VerifierResponseCode | EphemeralKeyID
    | RequestObjectID | AuthSession | IssuerState | AccessToken | RefreshToken

  datatype Handle = Handle(kind: Kind, value: string)

  function KindName(k: Kind): (name: string)
    ensures ':' !in name
  {
    match k
    case RequestURI => "request_uri"
    case Code => "code"
    case State => "state"
    case VerifierResponseCode => "verifier_response_code"
    case EphemeralKeyID => "ephemeral_key_id"
    case RequestObjectID => "request_object_id"
    case AuthSession => "auth_session"
    case IssuerState => "issuer_state"
    case AccessToken => "access_token"
    case RefreshToken => "refresh_token"
  }

  /** The text an index is keyed by. */
  function KeyText(h: Handle): string {
    KindName(h.kind) + [':'] + h.value
  }

  lemma SameNameSameKind(a: Kind, b: Kind)
    requires KindName(a) == KindName(b)
    ensures a == b
  {
    // The first characters tell all kinds apart but three pairs, and lengths
    // or later characters tell those.
    assert |KindName(RequestURI)| == 11 && |KindName(RequestObjectID)| == 17 && |KindName(RefreshToken)| == 13;
    assert |KindName(Code)| == 4 && |KindName(State)| == 5 && |KindName(VerifierResponseCode)| == 22;
    assert |KindName(EphemeralKeyID)| == 16;
    assert |KindName(AuthSession)| == 12 && |KindName(IssuerState)| == 12 && |KindName(AccessToken)| == 12;
    assert KindName(AuthSession)[0] == 'a' && KindName(AuthSession)[1] == 'u';
    assert KindName(IssuerState)[0] == 'i';
    assert KindName(AccessToken)[0] == 'a' && KindName(AccessToken)[1] == 'c';
  }

  /** Handles of different kinds or values never share an index key, so the one
      text-keyed map holds ten separate indices. */
  lemma KeyTextInjective(a: Handle, b: Handle)
    requires KeyText(a) == KeyText(b)
    ensures a == b
  {
    var x, y := KindName(a.kind), KindName(b.kind);
    var t := KeyText(a);
    assert t[|x|] == ':' && t[|y|] == ':';
    assert forall i :: 0 <= i < |x| ==> t[i] == x[i];
    assert forall i :: 0 <= i < |y| ==> t[i] == y[i];
    assert |x| == |y|;
    assert t[..|x|] == x && t[..|y|] == y;
    SameNameSameKind(a.kind, b.kind);
    assert t[|x| + 1..] == a.value && t[|y| + 1..] == b.value;
  }

  /** The fields that are indexed, in the order the store visits them; an access
      token may stand in two places. */
  function Listed(d: Doc): seq<Handle> {
    [Handle(RequestURI, d.requestURI), Handle(Code, d.code), Handle(State, d.state),
     Handle(VerifierResponseCode, d.verifierResponseCode), Handle(EphemeralKeyID, d.ephemeralKeyID),
     Handle(RequestObjectID, d.requestObjectID), Handle(AuthSession, d.authSession),
     Handle(IssuerState, d.issuerState),
     Handle(AccessToken, if d.token.Some? then d.token.value.accessToken else ""),
     Handle(AccessToken, d.accessToken), Handle(RefreshToken, d.refreshToken)]
  }

  /** Those that are set. */
  function Present(handles: seq<Handle>): set<Handle> {
    if handles == [] then {}
    else
      var last := handles[|handles| - 1];
      Present(handles[..|handles| - 1]) + if last.value == "" then {} else {last}
  }

  /** The handles a document carries. */
  function HandlesOf(d: Doc): set<Handle> {
    Present(Listed(d))
  }

  predicate Carries(d: Doc, h: Handle) {
    h in HandlesOf(d)
  }

  /** The field of `d` that `h` names holds its value. */
  predicate FieldIs(d: Doc, h: Handle) {
    match h.kind
    case RequestURI => d.requestURI == h.value
    case Code => d.code == h.value
    case State => d.state == h.value
    case VerifierResponseCode => d.verifierResponseCode == h.value
    case EphemeralKeyID => d.ephemeralKeyID == h.value
    case RequestObjectID => d.requestObjectID == h.value
    case AuthSession => d.authSession == h.value
    case IssuerState => d.issuerState == h.value
    case AccessToken => d.accessToken == h.value || (d.token.Some? && d.token.value.accessToken == h.value)
    case RefreshToken => d.refreshToken == h.value
  }

  lemma {:induction false} InPresent(handles: seq<Handle>, h: Handle)
    ensures h in Present(handles) <==> h in handles && h.value != ""
  {
    if handles != [] {
      var n := |handles| - 1;
      InPresent(handles[..n], h);
      assert handles == handles[..n] + [handles[n]];
    }
  }

  /** A document carries a handle exactly when it is set and its field holds it. */
  lemma CarriesExactly(d: Doc, h: Handle)
    ensures Carries(d, h) <==> h.value != "" && FieldIs(d, h)
  {
    InPresent(Listed(d), h);
    var l := Listed(d);
    if h.value != "" && FieldIs(d, h) {
      var i := match h.kind
        case RequestURI => 0 case Code => 1 case State => 2 case VerifierResponseCode => 3
        case EphemeralKeyID => 4 case RequestObjectID => 5 case AuthSession => 6 case IssuerState => 7
        case AccessToken => if d.accessToken == h.value then 9 else 8
        case RefreshToken => 10;
      assert l[i] == h;
    }
  }

  // ----- one-shot handles -----

  predicate OneShot(h: Handle) {
    (h.kind == AuthSession || h.kind == IssuerState) && h.value != ""
  }

  /** `d` holds the one-shot handle `h`. */
  predicate Holds(d: Doc, h: Handle) {
    OneShot(h) && h.value == if h.kind == AuthSession then d.authSession else d.issuerState
  }
}
