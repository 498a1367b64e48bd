/** Access tokens: an encoded payload with an expiry second, and its signature. */
module AccessTokens {
  import opened Base64Url
  import opened Documents
  import opened JsonValues
  import opened Sequences
  import opened Wrappers

  const MEMBER := "member"

  datatype User = User(
    employeeId: string, passwordHash: string, workspaceId: string, workspaceName: string, role: string,
    displayName: Option<string>)

  datatype TokenError = NoDot | SignatureNotAscii | BadSignature | Undecodable | UnexpectedPayload | Expired

  /** The keyed hash, JSON, and Python's `int` and `str` on JSON values, with the lifetime of a token. */
  datatype Signer = Signer(
    mac: string -> Bytes, dumps: Json -> Bytes, loads: Bytes -> Option<Json>,
    toInt: Json -> Option<int>, toStr: Json -> string, ttlSeconds: nat) {

    /** JSON brings payloads back, and the conversions keep integers and strings. */
    ghost predicate Valid() {
      && (forall user, exp :: loads(dumps(Payload(user, exp))) == Some(Payload(user, exp)))
      && (forall i :: toInt(JInt(i)) == Some(i))
      && (forall s :: toStr(JString(s)) == s)
    }

    function Sign(payload: string): string {
      Encode(mac(payload))
    }
  }

  function Payload(user: User, exp: int): Json {
    JObject(map[
      "employee_id" := JString(user.employeeId),
      "workspace_id" := JString(user.workspaceId),
      "workspace_name" := JString(user.workspaceName),
      "role" := JString(user.role),
      "display_name" := if user.displayName.Some? then JString(user.displayName.value) else JNull,
      "exp" := JInt(exp)])
  }

  /** `int` of a timestamp in milliseconds, in seconds: it truncates toward zero. */
  function Seconds(milliseconds: int): int {
    if milliseconds >= 0 then milliseconds / 1000 else -((-milliseconds) / 1000)
  }

  function ExpiryOf(signer: Signer, created: int): int {
    Seconds(created + 1000 * signer.ttlSeconds)
  }

  function CreateToken(signer: Signer, user: User, now: int): string {
    var payload := Encode(signer.dumps(Payload(user, ExpiryOf(signer, now))));
    payload + "." + signer.Sign(payload)
  }

  /** `split(".", 1)` into two parts. */
  function SplitAtDot(s: string): Option<(string, string)> {
    if s == "" then None
    else if s[0] == '.' then Some(("", s[1..]))
    else
      match SplitAtDot(s[1..])
      case None => None
      case Some((before, after)) => Some(([s[0]] + before, after))
  }

  /** The user of a payload at a time; the password hash is not part of it. */
  function ReadPayload(signer: Signer, payload: Json, now: int): Result<User, TokenError> {
    if !payload.JObject? then Err(UnexpectedPayload)
    else
      var fields := payload.fields;
      var exp := if "exp" in fields then signer.toInt(fields["exp"]) else Some(0);
      if exp.None? then Err(UnexpectedPayload)
      else if exp.value < Seconds(now) then Err(Expired)
      else if "employee_id" !in fields || "workspace_id" !in fields || "workspace_name" !in fields then Err(UnexpectedPayload)
      else
        var role := if "role" in fields then signer.toStr(fields["role"]) else MEMBER;
        var displayName := Field(payload, "display_name");
        if !displayName.JNull? && !displayName.JString? then Err(UnexpectedPayload)
        else
          Ok(User(signer.toStr(fields["employee_id"]), "", signer.toStr(fields["workspace_id"]),
                  signer.toStr(fields["workspace_name"]), role,
                  if displayName.JString? then Some(displayName.s) else None))
  }

  function ValidateToken(signer: Signer, token: string, now: int): Result<User, TokenError> {
    match SplitAtDot(token)
    case None => Err(NoDot)
    case Some((payload, signature)) =>
      if !IsAscii(signature) then Err(SignatureNotAscii)
      else if signature != signer.Sign(payload) then Err(BadSignature)
      else
        match Decode(payload)
        case Err(_) => Err(Undecodable)
        case Ok(bytes) =>
          var json := signer.loads(bytes);
          if json.None? then Err(Undecodable) else ReadPayload(signer, json.value, now)
  }

  // ----- splitting -----

  ghost predicate DotFree(s: string) {
    forall i :: 0 <= i < |s| ==> s[i] != '.'
  }

  /** The first dot separates the dot-free part before it from everything after it. */
  lemma {:induction false} SplitsAtFirstDot(before: string, after: string)
    requires DotFree(before)
    ensures SplitAtDot(before + "." + after) == Some((before, after))
  {
    var s := before + "." + after;
    if before == "" {
      assert s[1..] == after;
    } else {
      assert s[1..] == before[1..] + "." + after;
      SplitsAtFirstDot(before[1..], after);
      assert [before[0]] + before[1..] == before;
    }
  }

  lemma {:induction false} PartsOfSplit(s: string)
    ensures match SplitAtDot(s)
      case None => DotFree(s)
      case Some((before, after)) => DotFree(before) && s == before + "." + after
  {
    if s != "" && s[0] != '.' {
      PartsOfSplit(s[1..]);
      if SplitAtDot(s[1..]).Some? {
        var (before, after) := SplitAtDot(s[1..]).value;
        Regroup([s[0]], before, "." + after);
        assert s == [s[0]] + s[1..];
        assert before + "." + after == before + ("." + after);
      }
    }
  }

  // ----- tokens -----

  /**
   A created token stands for the same identity at every second up to its expiry, and is expired at
   every later one.
   */
  lemma TokenRoundTrip(signer: Signer, user: User, created: int, now: int)
    requires signer.Valid()
    ensures ValidateToken(signer, CreateToken(signer, user, created), now)
      == if Seconds(now) <= ExpiryOf(signer, created) then Ok(user.(passwordHash := "")) else Err(Expired)
  {
    var json := Payload(user, ExpiryOf(signer, created));
    var payload := Encode(signer.dumps(json));
    EncodeFacts(signer.dumps(json));
    EncodeFacts(signer.mac(payload));
    DecodeUndoesEncode(signer.dumps(json));
    SplitsAtFirstDot(payload, signer.Sign(payload));
    PayloadReadsBack(signer, user, ExpiryOf(signer, created), now);
  }

  lemma PayloadReadsBack(signer: Signer, user: User, exp: int, now: int)
    requires signer.Valid()
    ensures ReadPayload(signer, Payload(user, exp), now)
      == if Seconds(now) <= exp then Ok(user.(passwordHash := "")) else Err(Expired)
  {
    var fields := Payload(user, exp).fields;
    assert fields["exp"] == JInt(exp) && fields["role"] == JString(user.role);
    assert fields["employee_id"] == JString(user.employeeId);
    assert fields["workspace_id"] == JString(user.workspaceId);
    assert fields["workspace_name"] == JString(user.workspaceName);
  }

  /** In milliseconds, a token lives for its lifetime and less than one second more. */
  lemma TokenLifetime(signer: Signer, user: User, created: nat, now: nat)
    requires signer.Valid()
    ensures now <= created + 1000 * signer.ttlSeconds ==>
      ValidateToken(signer, CreateToken(signer, user, created), now) == Ok(user.(passwordHash := ""))
    ensures now >= created + 1000 * (signer.ttlSeconds + 1) ==>
      ValidateToken(signer, CreateToken(signer, user, created), now) == Err(Expired)
  {
    TokenRoundTrip(signer, user, created, now);
  }

  /** Whatever is accepted is a payload without dots, a dot, and the payload's own signature. */
  lemma AcceptedTokensAreSigned(signer: Signer, token: string, now: int) returns (payload: string)
    requires ValidateToken(signer, token, now).Ok?
    ensures DotFree(payload) && token == payload + "." + signer.Sign(payload)
    ensures Decode(payload).Ok? && signer.loads(Decode(payload).value).Some?
  {
    PartsOfSplit(token);
    payload := SplitAtDot(token).value.0;
  }

  /** Without a dot, or with another signature than the payload's own, a token is refused as such at any time. */
  lemma ForgedTokensFail(signer: Signer, payload: string, signature: string, now: int)
    requires DotFree(payload) && signature != signer.Sign(payload)
    ensures ValidateToken(signer, payload, now) == Err(NoDot)
    ensures ValidateToken(signer, payload + "." + signature, now)
      == Err(if exists i :: 0 <= i < |signature| && signature[i] as int >= 128 then SignatureNotAscii else BadSignature)
  {
    SplitsAtFirstDot(payload, signature);
    NoDotNoSplit(payload);
  }

  lemma NoDotNoSplit(s: string)
    requires DotFree(s)
    ensures SplitAtDot(s) == None
  {
    PartsOfSplit(s);
    assert forall before, after :: s == before + "." + after ==> s[|before|] == '.';
  }

  // ----- tokens and payloads, literally -----

  /** A token is the encoded payload, a dot, and the encoded signature of what stands before the dot. */
  lemma TokenParts(signer: Signer, user: User, created: nat)
    ensures var payload := Encode(signer.dumps(Payload(user, created / 1000 + signer.ttlSeconds)));
      CreateToken(signer, user, created) == payload + "." + Encode(signer.mac(payload))
  {
  }

  /** The payload has six fields; a missing display name is null. */
  lemma PayloadFields(user: User, exp: int)
    ensures Payload(user, exp).JObject?
    ensures var fields := Payload(user, exp).fields;
      && fields.Keys == {"employee_id", "workspace_id", "workspace_name", "role", "display_name", "exp"}
      && fields["employee_id"] == JString(user.employeeId) && fields["workspace_id"] == JString(user.workspaceId)
      && fields["workspace_name"] == JString(user.workspaceName) && fields["role"] == JString(user.role)
      && fields["display_name"] == (if user.displayName.None? then JNull else JString(user.displayName.value))
      && fields["exp"] == JInt(exp)
  {
  }

  /** What an accepted payload must hold, and what is taken from it: a missing role means a member. */
  lemma AcceptedPayload(signer: Signer, payload: Json, now: nat)
    requires ReadPayload(signer, payload, now).Ok?
    ensures payload.JObject?
    ensures var fields, user := payload.fields, ReadPayload(signer, payload, now).value;
      && {"employee_id", "workspace_id", "workspace_name"} <= fields.Keys
      && user.employeeId == signer.toStr(fields["employee_id"]) && user.workspaceId == signer.toStr(fields["workspace_id"])
      && user.workspaceName == signer.toStr(fields["workspace_name"]) && user.passwordHash == ""
      && user.role == (if "role" in fields then signer.toStr(fields["role"]) else "member")
      && (user.displayName.Some? ==> "display_name" in fields && fields["display_name"] == JString(user.displayName.value))
      && (user.displayName.None? ==> "display_name" in fields ==> fields["display_name"] == JNull)
      && (if "exp" in fields then signer.toInt(fields["exp"]).Some? && now / 1000 <= signer.toInt(fields["exp"]).value
          else now / 1000 <= 0)
  {
  }
}
