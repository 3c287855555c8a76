/**
 * The request decisions of the six HTTP handlers of Main.java, lifted out of
 * their I/O. A handler here is a function from the request and from what the
 * storage answered to the reply sent and the writes made. The storage calls,
 * the clock and the UUID source are parameters: a lookup answers Found,
 * Missing or Failed (an exception), a write answers whether it went through.
 */
module Handlers {
  import opened Wrappers
  import opened JavaText
  import opened JsonEncode
  import opened JsonDecode
  import opened Digests
  import opened KeyOrders
  import opened Token
  import opened Tickets
  import JsonRoundTrip

  /** What a handler reads from the exchange: method, decoded path, Authorization header, body text. */
  datatype Request = Request(verb: string, path: string, authorization: Option<string>, body: string)

  datatype ContentType = Json | PlainText | NoBody

  /** A reply as respond / respondText send it. */
  datatype Reply = Reply(status: int, contentType: ContentType, text: string)

  /** The writes a handler asks the storage for. */
  datatype Effect =
    | InsertUser(user: map<string, string>)
    | UpdateProfile(uid: Option<string>, name: Option<string>, sector: Option<string>)
    | InsertTicket(ticket: Record)
    | DeleteTicket(id: string)
    | UpdateTicket(ticket: Record)
    | UpdateStatus(id: string, status: string, updatedAt: string)

  /**
   * A reply with the writes that went through before it, or Aborted when an
   * exception escapes the handler outside its try block and no reply is sent.
   */
  datatype Outcome = Respond(reply: Reply, effects: seq<Effect>) | Aborted

  /** The answer of a storage lookup: the row, no row (null), or an exception. */
  datatype Lookup = Found(row: Record) | Missing | Failed

  ghost predicate ValidEnv(env: Env) {
    ValidOrder(env.order) && ValidOrder(env.hashOrder)
  }

  const NotAuthenticated := "Não autenticado"
  const MethodNotAllowed := "Method Not Allowed"
  const CredentialsRequired := "Email e senha são obrigatórios"
  const NameRequired := "Nome é obrigatório"
  const InvalidRole := "Papel inválido: use 'usuario' ou 'tecnico'"
  const UserExists := "Usuário já existe"
  const SignupFailed := "Falha ao criar usuário"
  const UnknownUser := "Usuário não encontrado. Cadastre-se para acessar o sistema"
  const BadLogin := "Login inválido"
  const LoginFailed := "Falha ao autenticar"
  const UserNotFound := "Usuário não encontrado"
  const ProfileFailed := "Falha ao atualizar perfil"
  const ListTicketsFailed := "Falha ao listar tickets"
  const CreateTicketFailed := "Falha ao criar ticket"
  const PathNotFound := "Not Found"
  const TicketNotFound := "Ticket não encontrado"
  const DeleteForbidden := "Apenas técnicos podem deletar tickets"
  const InvalidStatus := "Status inválido"
  const StatusForbidden := "Apenas técnicos podem alterar status"
  const TicketFailed := "Falha ao manipular ticket"
  const UsersForbidden := "Apenas técnicos podem listar usuários"
  const ListUsersFailed := "Falha ao listar usuários"

  predicate IsMethod(req: Request, name: string) {
    EqualsIgnoreCase(req.verb, name)
  }

  /** A JSON error reply, with no write. */
  function Fail(status: int, msg: string): Outcome {
    Respond(Reply(status, Json, "{\"error\":\"" + msg + "\"}"), [])
  }

  /** A plain-text reply of the login handler. */
  function Refuse(msg: string): Outcome {
    Respond(Reply(401, PlainText, msg), [])
  }

  /** The answer to a CORS preflight: 204 without a body. */
  const Preflight: Outcome := Respond(Reply(204, NoBody, ""), [])

  /** Map.getOrDefault(k, null) on a map of strings. */
  function MaybeGet(m: map<string, string>, k: string): Option<string> {
    if k in m then Some(m[k]) else None
  }

  /** The caller's role: the role claim, usuario when it is missing. */
  function RoleOf(claims: map<string, string>): string {
    BodyOr(claims, "role", "usuario")
  }

  /** String.valueOf(row.getOrDefault(k, d)): a present NULL column reads "null". */
  function Column(u: Record, k: string, default: string): string {
    if k in u then ValueText(u[k]) else default
  }

  /** A map of JSON values as the writer walks it, in the given iteration order. */
  function ObjectOf(m: map<string, JsonValue>, order: KeyOrder): (v: JsonValue)
    requires ValidOrder(order)
    ensures v.JObject?
    ensures forall i :: 0 <= i < |v.members| ==> v.members[i].0 in m && v.members[i].1 == m[v.members[i].0]
    ensures forall k :: k in m ==> exists i :: 0 <= i < |v.members| && v.members[i].0 == k
  {
    var keys := order(m.Keys);
    assert Enumerates(keys, m.Keys);
    var v := JObject(seq(|keys|, i requires 0 <= i < |keys| => (keys[i], m[keys[i]])));
    assert forall i :: 0 <= i < |keys| ==> v.members[i].0 == keys[i];
    v
  }

  /** A cell: NULL is written null, text as a string. */
  function CellJson(c: Option<string>): JsonValue {
    match c
    case None => JNull
    case Some(s) => JString(s)
  }

  /**
   * v is the JSON object of row r: one member per column, each column once,
   * a NULL column written null and a text column written as a string.
   */
  predicate WritesRow(v: JsonValue, r: Record) {
    && v.JObject?
    && (forall i :: 0 <= i < |v.members| ==> v.members[i].0 in r && v.members[i].1 == CellJson(r[v.members[i].0]))
    && (forall k :: k in r ==> exists i :: 0 <= i < |v.members| && v.members[i].0 == k)
    && (forall i, j :: 0 <= i < j < |v.members| ==> v.members[i].0 != v.members[j].0)
  }

  /** A storage row (a HashMap) as JSON. */
  function RowJson(r: Record, order: KeyOrder): (v: JsonValue)
    requires ValidOrder(order)
    ensures WritesRow(v, r)
  {
    var cells := map k | k in r :: CellJson(r[k]);
    var keys := order(cells.Keys);
    assert Enumerates(keys, cells.Keys);
    var v := ObjectOf(cells, order);
    assert forall i :: 0 <= i < |v.members| ==> v.members[i].0 == keys[i];
    forall k | k in r ensures exists i :: 0 <= i < |v.members| && v.members[i].0 == k {
      assert k in cells;
    }
    v
  }

  /** A list of rows as a JSON array: item i is the object of row i. */
  function RowsJson(rs: seq<Record>, order: KeyOrder): (v: JsonValue)
    requires ValidOrder(order)
    ensures v.JArray? && |v.items| == |rs|
    ensures forall i :: 0 <= i < |rs| ==> WritesRow(v.items[i], rs[i])
  {
    JArray(seq(|rs|, i requires 0 <= i < |rs| => RowJson(rs[i], order)))
  }

  /** The user object of the login and profile replies. */
  function UserJson(id: string, email: string, name: string, role: string, sector: string, order: KeyOrder): JsonValue
    requires ValidOrder(order)
  {
    ObjectOf(map["id" := JString(id), "email" := JString(email), "name" := JString(name),
                 "role" := JString(role), "sector" := JString(sector)], order)
  }

  /** The reply of login and profile update: the token and the user. */
  function SessionJson(token: string, user: JsonValue, order: KeyOrder): JsonValue
    requires ValidOrder(order)
  {
    ObjectOf(map["token" := JString(token), "user" := user], order)
  }

  // ---------------------------------------------------------------- signup

  /** The signup fields: email and role trimmed and lower-cased, name and sector trimmed. */
  datatype SignupForm = SignupForm(email: string, password: string, name: string, role: string, sector: string)

  function ReadSignup(body: map<string, string>): SignupForm {
    SignupForm(ToLower(Trim(BodyOr(body, "email", ""))), BodyOr(body, "password", ""),
               Trim(BodyOr(body, "name", "")), ToLower(Trim(BodyOr(body, "role", ""))),
               Trim(BodyOr(body, "sector", "")))
  }

  /** The first rule a signup breaks, in the handler's order; None when it breaks none. */
  function SignupError(f: SignupForm): (e: Option<string>)
    ensures e.None? <==> f.email != "" && f.password != "" && f.name != "" && (f.role == "usuario" || f.role == "tecnico")
    ensures e == Some(NameRequired) ==> f.email != "" && f.password != ""
    ensures e == Some(InvalidRole) ==> f.email != "" && f.password != "" && f.name != ""
  {
    if f.email == "" || f.password == "" then Some(CredentialsRequired)
    else if f.name == "" then Some(NameRequired)
    else if !(f.role == "usuario" || f.role == "tecnico") then Some(InvalidRole)
    else None
  }

  /** The user signup replies with: no password and no hash. */
  function PublicUser(f: SignupForm, id: string): (u: map<string, string>)
    ensures u.Keys == {"id", "email", "name", "role", "sector"}
  {
    map["id" := id, "email" := f.email, "name" := f.name, "role" := f.role, "sector" := f.sector]
  }

  /**
   * The row signup stores: the user of the reply, plus the password only as
   * its SHA-256 hex text, plus the creation time.
   */
  function NewUser(f: SignupForm, id: string, createdAt: string, crypto: Crypto): (u: map<string, string>)
    ensures u == PublicUser(f, id)["password_hash" := Sha256Hex(f.password, crypto)]["created_at" := createdAt]
  {
    map["id" := id, "email" := f.email, "name" := f.name, "role" := f.role, "sector" := f.sector,
        "password_hash" := Sha256Hex(f.password, crypto), "created_at" := createdAt]
  }

  /** A signup POST whose body parses and whose form breaks no rule. */
  predicate SignupFormValid(req: Request) {
    && !IsMethod(req, "OPTIONS") && IsMethod(req, "POST") && DecodeObject(Some(req.body)).Some?
    && SignupError(ReadSignup(DecodeObject(Some(req.body)).value)).None?
  }

  /**
   * handleSignup. The body is parsed outside the try block, so a body that
   * makes parseJsonObject throw aborts the exchange. A user is inserted only
   * for a valid form and an unused email, and only then is 201 sent.
   */
  function Signup(req: Request, existing: Lookup, inserted: bool, id: string, createdAt: string, env: Env): (r: Outcome)
    requires ValidEnv(env)
    ensures IsMethod(req, "OPTIONS") ==> r == Preflight
    ensures !IsMethod(req, "OPTIONS") && !IsMethod(req, "POST") ==> r == Fail(405, MethodNotAllowed)
    ensures r.Aborted? <==> !IsMethod(req, "OPTIONS") && IsMethod(req, "POST") && DecodeObject(Some(req.body)).None?
    ensures r.Respond? && r.reply.status == 201
            <==> !IsMethod(req, "OPTIONS") && IsMethod(req, "POST") && DecodeObject(Some(req.body)).Some?
                 && SignupError(ReadSignup(DecodeObject(Some(req.body)).value)).None?
                 && existing == Missing && inserted
    ensures r.Respond? && r.effects != [] ==>
              r.reply.status == 201
              && var f := ReadSignup(DecodeObject(Some(req.body)).value);
              r.effects == [InsertUser(NewUser(f, id, createdAt, env.crypto))]
    ensures r.Respond? && r.reply.status == 409 ==> existing.Found?
    ensures (!IsMethod(req, "OPTIONS") && IsMethod(req, "POST") && DecodeObject(Some(req.body)).Some?
             && SignupError(ReadSignup(DecodeObject(Some(req.body)).value)).Some?)
            ==> r == Fail(400, SignupError(ReadSignup(DecodeObject(Some(req.body)).value)).value)
    ensures SignupFormValid(req) && existing.Found? ==> r == Fail(409, UserExists)
    ensures SignupFormValid(req) && (existing.Failed? || (existing.Missing? && !inserted)) ==> r == Fail(500, SignupFailed)
    ensures SignupFormValid(req) && existing.Missing? && inserted ==>
              var f := ReadSignup(DecodeObject(Some(req.body)).value);
              r == Respond(Reply(201, Json, ValueToJson(StringObject(PublicUser(f, id), env.order))),
                           [InsertUser(NewUser(f, id, createdAt, env.crypto))])
  {
    if IsMethod(req, "OPTIONS") then Preflight
    else if !IsMethod(req, "POST") then Fail(405, MethodNotAllowed)
    else match DecodeObject(Some(req.body))
      case None => Aborted
      case Some(body) =>
        var f := ReadSignup(body);
        match SignupError(f)
        case Some(msg) => Fail(400, msg)
        case None =>
          match existing
          case Failed => Fail(500, SignupFailed)
          case Found(_) => Fail(409, UserExists)
          case Missing =>
            if !inserted then Fail(500, SignupFailed)
            else
              Respond(Reply(201, Json, ValueToJson(StringObject(PublicUser(f, id), env.order))),
                      [InsertUser(NewUser(f, id, createdAt, env.crypto))])
  }

  /**
   * The text of signup's 201 reply reads back as the public user: the id and
   * the form's fields, without the password hash, whatever order Map.of walks
   * the keys in, provided none of them holds a quote or a backslash.
   */
  lemma SignupReplyPublic(f: SignupForm, id: string, order: KeyOrder)
    requires ValidOrder(order) && PlainMap(PublicUser(f, id))
    ensures var u := PublicUser(f, id);
            DecodeObject(Some(ValueToJson(StringObject(u, order)))) == Some(u)
            && "password_hash" !in u && u["id"] == id && u["email"] == f.email && u["role"] == f.role
  {
    StringObjectRoundTrip(PublicUser(f, id), order);
  }

  // ---------------------------------------------------------------- login

  /** The password check of login: the stored hash equals the hash of the given password. */
  predicate PasswordAccepted(password: string, u: Record, crypto: Crypto) {
    Get(u, "password_hash") == Some(Sha256Hex(password, crypto))
  }

  /** The role check of login: no role requested, or the stored one. */
  predicate RoleAccepted(requested: string, stored: string) {
    IsBlank(requested) || stored == requested
  }

  function RoleMismatch(stored: string): string {
    if stored == "usuario" then "Login cadastrado como usuário" else "Login cadastrado como técnico"
  }

  /** The login fields: email trimmed and lower-cased, the password as sent, the requested role trimmed and lower-cased. */
  datatype LoginForm = LoginForm(email: string, password: string, requested: string)

  function ReadLogin(body: map<string, string>): LoginForm {
    LoginForm(ToLower(Trim(BodyOr(body, "email", ""))), BodyOr(body, "password", ""), ToLower(Trim(BodyOr(body, "role", ""))))
  }

  /** A login POST whose body parses and names both an email and a password. */
  predicate LoginFilled(req: Request) {
    && !IsMethod(req, "OPTIONS") && IsMethod(req, "POST") && DecodeObject(Some(req.body)).Some?
    && ReadLogin(DecodeObject(Some(req.body)).value).email != "" && ReadLogin(DecodeObject(Some(req.body)).value).password != ""
  }

  /** The token login issues for a found row: its id as text, the request's email, the stored name, role and sector. */
  function LoginToken(email: string, u: Record, now: int, env: Env): Option<string>
    requires ValidOrder(env.order)
  {
    CreateToken(ValueText(Get(u, "id")), email, Column(u, "name", ""), Column(u, "role", "usuario"),
                Column(u, "sector", ""), IntToString(now), env)
  }

  /**
   * handleLogin. The checks run in this order: fields present (400), user
   * found (401), password (401), requested role (401); only then a token. A
   * NULL id makes the reply's Map.of throw: 500. Login writes nothing.
   */
  function Login(req: Request, found: Lookup, now: int, env: Env): (r: Outcome)
    requires ValidEnv(env)
    ensures IsMethod(req, "OPTIONS") ==> r == Preflight
    ensures !IsMethod(req, "OPTIONS") && !IsMethod(req, "POST") ==> r == Fail(405, MethodNotAllowed)
    ensures r.Aborted? <==> !IsMethod(req, "OPTIONS") && IsMethod(req, "POST") && DecodeObject(Some(req.body)).None?
    ensures r.Respond? ==> r.effects == []
    ensures (!IsMethod(req, "OPTIONS") && IsMethod(req, "POST") && DecodeObject(Some(req.body)).Some? && !LoginFilled(req))
            ==> r == Fail(400, CredentialsRequired)
    ensures LoginFilled(req) && found.Failed? ==> r == Fail(500, LoginFailed)
    ensures LoginFilled(req) && found.Missing? ==> r == Refuse(UnknownUser)
    ensures r.Respond? && r.reply.status == 200 ==>
              && LoginFilled(req)
              && var f := ReadLogin(DecodeObject(Some(req.body)).value);
              && found.Found?
              && PasswordAccepted(f.password, found.row, env.crypto)
              && RoleAccepted(f.requested, Column(found.row, "role", "usuario"))
              && Get(found.row, "id").Some?
              && LoginToken(f.email, found.row, now, env).Some?
  {
    if IsMethod(req, "OPTIONS") then Preflight
    else if !IsMethod(req, "POST") then Fail(405, MethodNotAllowed)
    else match DecodeObject(Some(req.body))
      case None => Aborted
      case Some(body) =>
        var f := ReadLogin(body);
        if f.email == "" || f.password == "" then Fail(400, CredentialsRequired)
        else match found
          case Failed => Fail(500, LoginFailed)
          case Missing => Refuse(UnknownUser)
          case Found(u) =>
            if !PasswordAccepted(f.password, u, env.crypto) then Refuse(BadLogin)
            else
              var name, role, sector := Column(u, "name", ""), Column(u, "role", "usuario"), Column(u, "sector", "");
              if !RoleAccepted(f.requested, role) then Refuse(RoleMismatch(role))
              else match LoginToken(f.email, u, now, env)
                case None => Fail(500, LoginFailed)
                case Some(token) =>
                  match Get(u, "id")
                  case None => Fail(500, LoginFailed)
                  case Some(id) =>
                    Respond(Reply(200, Json, ValueToJson(SessionJson(token, UserJson(id, f.email, name, role, sector, env.order), env.order))), [])
  }

  // ---------------------------------------------------------------- /auth/me

  /** The profile write of PUT /auth/me: a tecnico's sector is never written. */
  function ProfileUpdate(claims: map<string, string>, body: map<string, string>): (e: Effect)
    ensures e.UpdateProfile? && e.uid == MaybeGet(claims, "sub") && e.name == MaybeGet(body, "name")
    ensures RoleOf(claims) == "tecnico" ==> e.sector.None?
    ensures RoleOf(claims) != "tecnico" ==> e.sector == MaybeGet(body, "sector")
  {
    var sector := if RoleOf(claims) == "tecnico" then None else MaybeGet(body, "sector");
    UpdateProfile(MaybeGet(claims, "sub"), MaybeGet(body, "name"), sector)
  }

  /** The user GET /auth/me echoes from the claims; the id is the sub claim. */
  function EchoUser(claims: map<string, string>): (u: map<string, string>)
    requires "sub" in claims && "email" in claims
    ensures u.Keys == {"id", "email", "name", "role", "sector"}
    ensures u["id"] == claims["sub"] && u["email"] == claims["email"] && u["role"] == RoleOf(claims)
  {
    map["id" := claims["sub"], "email" := claims["email"], "name" := BodyOr(claims, "name", ""),
        "role" := RoleOf(claims), "sector" := BodyOr(claims, "sector", "")]
  }

  /** The token PUT /auth/me issues: the sub claim, then the row's email, name and sector, and the claimed role. */
  function ProfileToken(uid: string, claims: map<string, string>, u: Record, now: int, env: Env): Option<string>
    requires ValidOrder(env.order)
  {
    CreateToken(uid, ValueText(Get(u, "email")), Column(u, "name", ""), RoleOf(claims), Column(u, "sector", ""), IntToString(now), env)
  }

  /** An authenticated request, other than a preflight, with the given method. */
  predicate AuthedCall(req: Request, env: Env, verb: string) {
    !IsMethod(req, "OPTIONS") && Authenticate(req.authorization, env).Some? && IsMethod(req, verb)
  }

  /**
   * handleMe. GET echoes the claims; a token without sub or email makes the
   * reply's Map.of throw outside the try block. PUT writes the profile, then
   * reads the user back by the email claim and issues a new token, so the
   * write stands whatever the read-back answers.
   */
  function Me(req: Request, saved: bool, found: Lookup, now: int, env: Env): (r: Outcome)
    requires ValidEnv(env)
    ensures IsMethod(req, "OPTIONS") ==> r == Preflight
    ensures !IsMethod(req, "OPTIONS") && Authenticate(req.authorization, env).None? ==> r == Fail(401, NotAuthenticated)
    ensures r.Aborted? <==>
              AuthedCall(req, env, "GET")
              && ("sub" !in Authenticate(req.authorization, env).value || "email" !in Authenticate(req.authorization, env).value)
    ensures AuthedCall(req, env, "GET") && "sub" in Authenticate(req.authorization, env).value
            && "email" in Authenticate(req.authorization, env).value ==>
              r == Respond(Reply(200, Json, ValueToJson(StringObject(EchoUser(Authenticate(req.authorization, env).value), env.order))), [])
    ensures AuthedCall(req, env, "PUT") && !IsMethod(req, "GET") && (DecodeObject(Some(req.body)).None? || !saved)
            ==> r == Fail(500, ProfileFailed)
    ensures AuthedCall(req, env, "PUT") && !IsMethod(req, "GET") && DecodeObject(Some(req.body)).Some? && saved ==>
              && r.Respond?
              && r.effects == [ProfileUpdate(Authenticate(req.authorization, env).value, DecodeObject(Some(req.body)).value)]
              && (found.Missing? ==> r.reply == Fail(404, UserNotFound).reply)
              && (found.Failed? ==> r.reply == Fail(500, ProfileFailed).reply)
    ensures !IsMethod(req, "OPTIONS") && Authenticate(req.authorization, env).Some? && !IsMethod(req, "GET") && !IsMethod(req, "PUT")
            ==> r == Fail(405, MethodNotAllowed)
    ensures r.Respond? && r.effects != [] ==>
              && AuthedCall(req, env, "PUT") && !IsMethod(req, "GET") && saved
              && DecodeObject(Some(req.body)).Some?
              && r.effects == [ProfileUpdate(Authenticate(req.authorization, env).value, DecodeObject(Some(req.body)).value)]
  {
    if IsMethod(req, "OPTIONS") then Preflight
    else match Authenticate(req.authorization, env)
      case None => Fail(401, NotAuthenticated)
      case Some(claims) =>
        if IsMethod(req, "GET") then
          if "sub" !in claims || "email" !in claims then Aborted
          else Respond(Reply(200, Json, ValueToJson(StringObject(EchoUser(claims), env.order))), [])
        else if IsMethod(req, "PUT") then
          match DecodeObject(Some(req.body))
          case None => Fail(500, ProfileFailed)
          case Some(body) =>
            if !saved then Fail(500, ProfileFailed)
            else
              var effects := [ProfileUpdate(claims, body)];
              var role := RoleOf(claims);
              match found
              case Failed => Respond(Fail(500, ProfileFailed).reply, effects)
              case Missing => Respond(Fail(404, UserNotFound).reply, effects)
              case Found(u) =>
                var email, sector, name := ValueText(Get(u, "email")), Column(u, "sector", ""), Column(u, "name", "");
                match MaybeGet(claims, "sub")
                case None => Respond(Fail(500, ProfileFailed).reply, effects)
                case Some(uid) =>
                  match ProfileToken(uid, claims, u, now, env)
                  case None => Respond(Fail(500, ProfileFailed).reply, effects)
                  case Some(token) =>
                    Respond(Reply(200, Json, ValueToJson(SessionJson(token, UserJson(uid, email, name, role, sector, env.order), env.order))), effects)
        else Fail(405, MethodNotAllowed)
  }

  /**
   * A saved profile whose user is read back, with a sub claim and a secret,
   * gets 200 with a new token carrying the sub claim and the row's email.
   */
  lemma MeProfileReissued(req: Request, u: Record, now: int, env: Env)
    requires ValidEnv(env) && AuthedCall(req, env, "PUT") && !IsMethod(req, "GET") && DecodeObject(Some(req.body)).Some?
    requires "sub" in Authenticate(req.authorization, env).value && env.secret != ""
    ensures var claims := Authenticate(req.authorization, env).value;
            var r := Me(req, true, Found(u), now, env);
            var token := ProfileToken(claims["sub"], claims, u, now, env);
            && token.Some?
            && r == Respond(Reply(200, Json, ValueToJson(SessionJson(token.value,
                      UserJson(claims["sub"], ValueText(Get(u, "email")), Column(u, "name", ""), RoleOf(claims),
                               Column(u, "sector", ""), env.order), env.order))),
                    [ProfileUpdate(claims, DecodeObject(Some(req.body)).value)])
  {
  }

  // ---------------------------------------------------------------- /tickets

  /** The reply to GET /tickets: the tickets the caller may see, as a JSON array. */
  function TicketList(ts: seq<Record>, claims: map<string, string>, env: Env): Outcome
    requires ValidOrder(env.hashOrder)
  {
    Respond(Reply(200, Json, ValueToJson(RowsJson(Visible(ts, RoleOf(claims), MaybeGet(claims, "sub")), env.hashOrder))), [])
  }

  /**
   * handleTickets. GET lists what the caller may see; POST stores a new
   * ticket owned by the token's sub. The POST body is parsed outside the try
   * block, so a body that makes parseJsonObject throw aborts the exchange.
   */
  function TicketsRoute(req: Request, listed: Option<seq<Record>>, inserted: bool, id: string, now: string, env: Env): (r: Outcome)
    requires ValidEnv(env)
    ensures IsMethod(req, "OPTIONS") ==> r == Preflight
    ensures !IsMethod(req, "OPTIONS") && Authenticate(req.authorization, env).None? ==> r == Fail(401, NotAuthenticated)
    ensures !IsMethod(req, "OPTIONS") && IsMethod(req, "GET") && Authenticate(req.authorization, env).Some? && listed.Some? ==>
              r == TicketList(listed.value, Authenticate(req.authorization, env).value, env)
    ensures !IsMethod(req, "OPTIONS") && IsMethod(req, "GET") && Authenticate(req.authorization, env).Some? && listed.None? ==>
              r == Fail(500, ListTicketsFailed)
    ensures r.Aborted? <==>
              AuthedCall(req, env, "POST") && !IsMethod(req, "GET") && DecodeObject(Some(req.body)).None?
    ensures AuthedCall(req, env, "POST") && !IsMethod(req, "GET") && DecodeObject(Some(req.body)).Some? ==>
              var ticket := NewTicket(DecodeObject(Some(req.body)).value, MaybeGet(Authenticate(req.authorization, env).value, "sub"), id, now);
              r == if inserted then Respond(Reply(201, Json, ValueToJson(RowJson(ticket, env.hashOrder))), [InsertTicket(ticket)])
                   else Fail(500, CreateTicketFailed)
    ensures !IsMethod(req, "OPTIONS") && Authenticate(req.authorization, env).Some? && !IsMethod(req, "GET") && !IsMethod(req, "POST")
            ==> r == Fail(405, MethodNotAllowed)
    ensures r.Respond? && r.effects != [] ==>
              && Authenticate(req.authorization, env).Some?
              && IsMethod(req, "POST") && inserted && DecodeObject(Some(req.body)).Some?
              && r.effects == [InsertTicket(NewTicket(DecodeObject(Some(req.body)).value, MaybeGet(Authenticate(req.authorization, env).value, "sub"), id, now))]
  {
    if IsMethod(req, "OPTIONS") then Preflight
    else match Authenticate(req.authorization, env)
      case None => Fail(401, NotAuthenticated)
      case Some(claims) =>
        if IsMethod(req, "GET") then
          match listed
          case None => Fail(500, ListTicketsFailed)
          case Some(ts) => TicketList(ts, claims, env)
        else if IsMethod(req, "POST") then
          match DecodeObject(Some(req.body))
          case None => Aborted
          case Some(body) =>
            var ticket := NewTicket(body, MaybeGet(claims, "sub"), id, now);
            if !inserted then Fail(500, CreateTicketFailed)
            else Respond(Reply(201, Json, ValueToJson(RowJson(ticket, env.hashOrder))), [InsertTicket(ticket)])
        else Fail(405, MethodNotAllowed)
  }

  /** A ticket created through POST /tickets belongs to the token's sub, whatever user_id the body names. */
  lemma CreatedTicketOwner(req: Request, listed: Option<seq<Record>>, id: string, now: string, env: Env)
    requires ValidEnv(env)
    requires var r := TicketsRoute(req, listed, true, id, now, env); r.Respond? && r.effects != []
    ensures var r := TicketsRoute(req, listed, true, id, now, env);
            r.effects[0].ticket["user_id"] == MaybeGet(Authenticate(req.authorization, env).value, "sub")
  {
  }

  // ---------------------------------------------------------------- /ticket/{id}

  /** The write of PATCH /ticket/{id}/status and the row it replies with. */
  function StatusChange(t: Record, status: string, now: string): (u: Record)
    ensures u.Keys == t.Keys + {"status", "updated_at"}
    ensures u["status"] == Some(status) && u["updated_at"] == Some(now)
    ensures forall k :: k in t && k != "status" && k != "updated_at" ==> u[k] == t[k]
  {
    t["status" := Some(status)]["updated_at" := Some(now)]
  }

  /**
   * handleTicketById. Every step runs inside the try block, so it always
   * replies. The ticket is looked up before the method is looked at: a
   * missing ticket is 404 for every caller. DELETE and PATCH status are for
   * the tecnico role; PUT is open to any authenticated caller.
   */
  function TicketRoute(req: Request, found: Lookup, written: bool, now: string, env: Env): (r: Outcome)
    requires ValidEnv(env)
    ensures r.Respond?
    ensures IsMethod(req, "OPTIONS") ==> r == Preflight
    ensures !IsMethod(req, "OPTIONS") && Authenticate(req.authorization, env).None? ==> r == Fail(401, NotAuthenticated)
    ensures !IsMethod(req, "OPTIONS") && Authenticate(req.authorization, env).Some? ==>
              (|JavaSplit(req.path, '/')| < 3 ==> r == Fail(404, PathNotFound))
              && (|JavaSplit(req.path, '/')| >= 3 && found == Missing ==> r == Fail(404, TicketNotFound))
    ensures r.reply.status == 403 ==> Authenticate(req.authorization, env).Some? && RoleOf(Authenticate(req.authorization, env).value) != "tecnico"
    ensures r.effects != [] ==>
              && Authenticate(req.authorization, env).Some? && found.Found? && written && |r.effects| == 1
              && |JavaSplit(req.path, '/')| >= 3
              && var claims, id := Authenticate(req.authorization, env).value, JavaSplit(req.path, '/')[2];
              && (r.effects[0].DeleteTicket? ==> IsMethod(req, "DELETE") && RoleOf(claims) == "tecnico" && r.effects[0].id == id)
              && (r.effects[0].UpdateStatus? ==> RoleOf(claims) == "tecnico" && r.effects[0].id == id
                                                 && !IsBlank(r.effects[0].status) && r.effects[0].updatedAt == now)
              && (r.effects[0].UpdateTicket? ==>
                    (IsMethod(req, "PUT") && DecodeObject(Some(req.body)).Some?
                     && var body := DecodeObject(Some(req.body)).value;
                     r.effects[0].ticket == PutTicket(found.row, body, env.hashOrder(body.Keys), now)))
              && (r.effects[0].DeleteTicket? || r.effects[0].UpdateStatus? || r.effects[0].UpdateTicket?)
  {
    if IsMethod(req, "OPTIONS") then Preflight
    else match Authenticate(req.authorization, env)
      case None => Fail(401, NotAuthenticated)
      case Some(claims) =>
        var parts := JavaSplit(req.path, '/');
        if |parts| < 3 then Fail(404, PathNotFound)
        else
          var id := parts[2];
          match found
          case Failed => Fail(500, TicketFailed)
          case Missing => Fail(404, TicketNotFound)
          case Found(t) =>
            if IsMethod(req, "DELETE") then
              if RoleOf(claims) != "tecnico" then Fail(403, DeleteForbidden)
              else if !written then Fail(500, TicketFailed)
              else Respond(Reply(204, Json, ""), [DeleteTicket(id)])
            else if IsMethod(req, "PUT") then
              match DecodeObject(Some(req.body))
              case None => Fail(500, TicketFailed)
              case Some(body) =>
                var keys := env.hashOrder(body.Keys);
                assert Enumerates(keys, body.Keys);
                var updated := PutTicket(t, body, keys, now);
                if !written then Fail(500, TicketFailed)
                else Respond(Reply(200, Json, ValueToJson(RowJson(updated, env.hashOrder))), [UpdateTicket(updated)])
            else if |parts| >= 4 && EqualsIgnoreCase(parts[3], "status") && IsMethod(req, "PATCH") then
              match DecodeObject(Some(req.body))
              case None => Fail(500, TicketFailed)
              case Some(body) =>
                match MaybeGet(body, "status")
                case None => Fail(400, InvalidStatus)
                case Some(status) =>
                  if IsBlank(status) then Fail(400, InvalidStatus)
                  else if RoleOf(claims) != "tecnico" then Fail(403, StatusForbidden)
                  else
                    var updated := StatusChange(t, status, now);
                    if !written then Fail(500, TicketFailed)
                    else Respond(Reply(200, Json, ValueToJson(RowJson(updated, env.hashOrder))), [UpdateStatus(id, status, now)])
            else Fail(405, MethodNotAllowed)
  }

  /** A request that reaches a ticket that exists, from an authenticated caller, on a path with an id. */
  predicate ReachesTicket(req: Request, found: Lookup, env: Env) {
    !IsMethod(req, "OPTIONS") && Authenticate(req.authorization, env).Some?
    && |JavaSplit(req.path, '/')| >= 3 && found.Found?
  }

  /**
   * DELETE of an existing ticket is refused with 403, deleting nothing, exactly
   * for a caller who is not a tecnico; a tecnico's delete that goes through
   * is answered 204 and deletes the ticket named in the path.
   */
  lemma DeleteNeedsTecnico(req: Request, found: Lookup, written: bool, now: string, env: Env)
    requires ValidEnv(env) && ReachesTicket(req, found, env) && IsMethod(req, "DELETE")
    ensures var r := TicketRoute(req, found, written, now, env);
            && (RoleOf(Authenticate(req.authorization, env).value) != "tecnico" <==> r == Fail(403, DeleteForbidden))
            && (RoleOf(Authenticate(req.authorization, env).value) == "tecnico" && written ==>
                  r == Respond(Reply(204, Json, ""), [DeleteTicket(JavaSplit(req.path, '/')[2])]))
  {
  }

  /** A PATCH /ticket/{id}/status request, past the DELETE and PUT branches, with a non-blank status. */
  predicate StatusRequest(req: Request) {
    && !IsMethod(req, "DELETE") && !IsMethod(req, "PUT") && IsMethod(req, "PATCH")
    && var parts := JavaSplit(req.path, '/');
    && |parts| >= 4 && EqualsIgnoreCase(parts[3], "status")
    && DecodeObject(Some(req.body)).Some?
    && var status := MaybeGet(DecodeObject(Some(req.body)).value, "status");
    && status.Some? && !IsBlank(status.value)
  }

  /**
   * A non-blank status change is refused with 403 exactly for a caller who is
   * not a tecnico; a tecnico's change that goes through writes the status
   * and the request time to the ticket named in the path, and replies 200
   * with the changed row.
   */
  lemma StatusNeedsTecnico(req: Request, found: Lookup, written: bool, now: string, env: Env)
    requires ValidEnv(env) && ReachesTicket(req, found, env) && StatusRequest(req)
    ensures var r := TicketRoute(req, found, written, now, env);
            var status := DecodeObject(Some(req.body)).value["status"];
            && (RoleOf(Authenticate(req.authorization, env).value) != "tecnico" <==> r == Fail(403, StatusForbidden))
            && (RoleOf(Authenticate(req.authorization, env).value) == "tecnico" && written ==>
                  r == Respond(Reply(200, Json, ValueToJson(RowJson(StatusChange(found.row, status, now), env.hashOrder))),
                               [UpdateStatus(JavaSplit(req.path, '/')[2], status, now)]))
  {
  }

  /**
   * A missing or blank status in PATCH /ticket/{id}/status is 400 for every
   * role: the body is judged before the caller.
   */
  lemma BlankStatusBeforeRole(req: Request, found: Lookup, written: bool, now: string, env: Env)
    requires ValidEnv(env) && ReachesTicket(req, found, env)
    requires !IsMethod(req, "DELETE") && !IsMethod(req, "PUT") && IsMethod(req, "PATCH")
    requires var parts := JavaSplit(req.path, '/'); |parts| >= 4 && EqualsIgnoreCase(parts[3], "status")
    requires DecodeObject(Some(req.body)).Some?
    requires var status := MaybeGet(DecodeObject(Some(req.body)).value, "status"); status.None? || IsBlank(status.value)
    ensures TicketRoute(req, found, written, now, env) == Fail(400, InvalidStatus)
  {
  }

  /**
   * PUT /ticket/{id} asks for no role and no ownership: any authenticated
   * caller's body is merged into any ticket and stored.
   */
  lemma PutOpenToAnyCaller(req: Request, found: Lookup, now: string, env: Env)
    requires ValidEnv(env) && ReachesTicket(req, found, env)
    requires !IsMethod(req, "DELETE") && IsMethod(req, "PUT") && DecodeObject(Some(req.body)).Some?
    ensures var r := TicketRoute(req, found, true, now, env);
            var body := DecodeObject(Some(req.body)).value;
            r.reply.status == 200 && r.effects == [UpdateTicket(PutTicket(found.row, body, env.hashOrder(body.Keys), now))]
  {
  }

  /** Login checks the password before the requested role, and refuses a role other than the stored one. */
  lemma LoginRoleMismatch(req: Request, found: Lookup, now: int, env: Env)
    requires ValidEnv(env) && LoginFilled(req) && found.Found?
    ensures var f := ReadLogin(DecodeObject(Some(req.body)).value);
            var stored := Column(found.row, "role", "usuario");
            var r := Login(req, found, now, env);
            && (!PasswordAccepted(f.password, found.row, env.crypto) ==> r == Refuse(BadLogin))
            && ((PasswordAccepted(f.password, found.row, env.crypto) && !RoleAccepted(f.requested, stored))
                  ==> r == Refuse(RoleMismatch(stored)))
  {
  }

  /**
   * A found user whose password and role are accepted gets 200 with a new
   * token and the user object; the id is the row's, the email the request's.
   * Without an id or a token (an empty secret) the reply is 500.
   */
  lemma LoginSucceeds(req: Request, u: Record, now: int, env: Env)
    requires ValidEnv(env) && LoginFilled(req)
    requires var f := ReadLogin(DecodeObject(Some(req.body)).value);
             PasswordAccepted(f.password, u, env.crypto) && RoleAccepted(f.requested, Column(u, "role", "usuario"))
    ensures var f := ReadLogin(DecodeObject(Some(req.body)).value);
            var r := Login(req, Found(u), now, env);
            var token := LoginToken(f.email, u, now, env);
            && (token.Some? && Get(u, "id").Some? ==>
                  r == Respond(Reply(200, Json, ValueToJson(SessionJson(token.value,
                                 UserJson(Get(u, "id").value, f.email, Column(u, "name", ""), Column(u, "role", "usuario"),
                                          Column(u, "sector", ""), env.order), env.order))), []))
            && (token.None? || Get(u, "id").None? ==> r == Fail(500, LoginFailed))
  {
  }

  /**
   * The token login hands out is accepted on the next request, and its claims
   * are the row's id as sub, the request's email, and the stored name, role
   * and sector, provided none of them holds a quote or a backslash.
   */
  lemma LoginTokenAccepted(email: string, u: Record, now: int, env: Env)
    requires ValidOrder(env.order) && env.secret != ""
    requires JsonRoundTrip.Plain(ValueText(Get(u, "id"))) && JsonRoundTrip.Plain(email)
    requires JsonRoundTrip.Plain(Column(u, "name", "")) && JsonRoundTrip.Plain(Column(u, "role", "usuario"))
    requires JsonRoundTrip.Plain(Column(u, "sector", ""))
    ensures LoginToken(email, u, now, env).Some?
    ensures Authenticate(Some("Bearer " + LoginToken(email, u, now, env).value), env)
            == Some(Payload(ValueText(Get(u, "id")), email, Column(u, "name", ""), Column(u, "role", "usuario"),
                            Column(u, "sector", ""), IntToString(now)))
  {
    DecimalPlain(now);
    TokenRoundTrip(ValueText(Get(u, "id")), email, Column(u, "name", ""), Column(u, "role", "usuario"),
                   Column(u, "sector", ""), IntToString(now), env);
  }

  /** Decimal text holds no quote and no backslash. */
  lemma DecimalPlain(n: int)
    ensures JsonRoundTrip.Plain(IntToString(n))
  {
    var r := IntToString(n);
    assert forall i :: 0 <= i < |r| ==> r[i] != '"' && r[i] != '\\';
  }

  // ---------------------------------------------------------------- /users

  /** handleUsers: the role is checked before the method. */
  function UsersRoute(req: Request, listed: Option<seq<Record>>, env: Env): (r: Outcome)
    requires ValidEnv(env)
    ensures r.Respond? && r.effects == []
    ensures IsMethod(req, "OPTIONS") ==> r == Preflight
    ensures !IsMethod(req, "OPTIONS") && Authenticate(req.authorization, env).None? ==> r == Fail(401, NotAuthenticated)
    ensures (!IsMethod(req, "OPTIONS") && Authenticate(req.authorization, env).Some?
             && RoleOf(Authenticate(req.authorization, env).value) != "tecnico") ==> r == Fail(403, UsersForbidden)
    ensures r.reply.status == 200 ==>
              IsMethod(req, "GET") && listed.Some? && Authenticate(req.authorization, env).Some?
              && RoleOf(Authenticate(req.authorization, env).value) == "tecnico"
              && r.reply.text == ValueToJson(RowsJson(listed.value, env.hashOrder))
    ensures (!IsMethod(req, "OPTIONS") && Authenticate(req.authorization, env).Some?
             && RoleOf(Authenticate(req.authorization, env).value) == "tecnico") ==>
              && (!IsMethod(req, "GET") ==> r == Fail(405, MethodNotAllowed))
              && (IsMethod(req, "GET") && listed.None? ==> r == Fail(500, ListUsersFailed))
              && (IsMethod(req, "GET") && listed.Some? ==>
                    r == Respond(Reply(200, Json, ValueToJson(RowsJson(listed.value, env.hashOrder))), []))
  {
    if IsMethod(req, "OPTIONS") then Preflight
    else match Authenticate(req.authorization, env)
      case None => Fail(401, NotAuthenticated)
      case Some(claims) =>
        if RoleOf(claims) != "tecnico" then Fail(403, UsersForbidden)
        else if !IsMethod(req, "GET") then Fail(405, MethodNotAllowed)
        else match listed
          case None => Fail(500, ListUsersFailed)
          case Some(users) => Respond(Reply(200, Json, ValueToJson(RowsJson(users, env.hashOrder))), [])
  }
}
