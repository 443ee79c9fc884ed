/**
 * Decoding of the messages the Discord client sends back: which event a
 * frame carries, the user of a READY event, and the fields of an ERROR event
 * or a Close frame.
 */
module Envelope {
  import opened Base
  import opened Json

  type Int32 = x: int | -0x8000_0000 <= x < 0x8000_0000
  type UInt16 = x: int | 0 <= x < 0x1_0000
  type UInt8 = x: int | 0 <= x < 0x100
  type UInt64 = x: int | 0 <= x < 0x1_0000_0000_0000_0000

  /** Narrowing to a signed 32-bit integer keeps the value modulo 2^32. */
  function ToInt32(i: int): (r: Int32)
    ensures -0x8000_0000 <= i < 0x8000_0000 ==> r == i
    ensures (i - r) % 0x1_0000_0000 == 0
  {
    (i + 0x8000_0000) % 0x1_0000_0000 - 0x8000_0000
  }

  /** Narrowing to an unsigned 16-bit integer keeps the value modulo 2^16. */
  function ToUInt16(i: int): (r: UInt16)
    ensures 0 <= i < 0x1_0000 ==> r == i
    ensures (i - r) % 0x1_0000 == 0
  {
    i % 0x1_0000
  }

  /** Narrowing to an unsigned 8-bit integer keeps the value modulo 2^8. */
  function ToUInt8(i: int): (r: UInt8)
    ensures 0 <= i < 0x100 ==> r == i
    ensures (i - r) % 0x100 == 0
  {
    i % 0x100
  }

  /** The account the client is logged in with. `flags` holds the `UserFlags` bits, `premium` a `UserPremiumTypes` value. */
  datatype User = User(
    isBot: bool,
    id: string,
    name: string,
    flags: UInt16,
    avatar: string,
    premium: UInt8,
    username: string,
    discriminator: string)

  /** The value of the constructor-less `User` member before any READY event. */
  const NoUser: User := User(false, "", "", 0, "", 0, "", "")

  /** What an inbound frame's message asks of the connection. */
  datatype Message =
    | ReadyEvent(user: Option<Json>)   // evt READY with cmd DISPATCH; the `data.user` member, if any
    | ErrorEvent(data: Option<Json>)   // evt ERROR with any string cmd; the `data` member, if any
    | OtherMessage                     // anything else is ignored

  /** The member `key` when it exists and is a string. */
  function StringMember(j: Json, key: string): (r: Option<string>)
    ensures r.Some? <==> j.JObject? && key in j.fields && j.fields[key].JString?
    ensures r.Some? ==> r.value == j.fields[key].s
  {
    match Find(j, key)
    case Some(JString(s)) => Some(s)
    case _ => None
  }

  /**
   * The event a message carries. Both `cmd` and `evt` must be strings; READY
   * also needs `cmd` to be DISPATCH, while ERROR does not look at `cmd`.
   */
  function Classify(j: Json): (m: Message)
    ensures m.ReadyEvent? <==> StringMember(j, "cmd") == Some("DISPATCH") && StringMember(j, "evt") == Some("READY")
    ensures m.ErrorEvent? <==> StringMember(j, "cmd").Some? && StringMember(j, "evt") == Some("ERROR")
    ensures m.ReadyEvent? ==> m.user == (match Find(j, "data") case Some(d) => Find(d, "user") case None => None)
    ensures m.ErrorEvent? ==> m.data == Find(j, "data")
  {
    match (StringMember(j, "cmd"), StringMember(j, "evt"))
    case (Some(cmd), Some(evt)) =>
      if evt == "READY" && cmd == "DISPATCH" then
        ReadyEvent(match Find(j, "data") case Some(d) => Find(d, "user") case None => None)
      else if evt == "ERROR" then ErrorEvent(Find(j, "data"))
      else OtherMessage
    case _ => OtherMessage
  }

  /** The eight typed reads of a READY event's user object, in the order they are made. */
  function DecodeUser(u: Json): (r: Result<User>)
    ensures r.Ok? <==> IsUserObject(u)
    ensures r.Err? ==> r.error == TypeError
  {
    var isBot :- GetBool(u, "bot");
    var id :- GetString(u, "id");
    var name :- GetString(u, "global_name");
    var flags :- GetInt(u, "flags");
    var avatar :- GetString(u, "avatar");
    var premium :- GetInt(u, "premium_type");
    var username :- GetString(u, "username");
    var discriminator :- GetString(u, "discriminator");
    Ok(User(isBot, id, name, ToUInt16(flags), avatar, ToUInt8(premium), username, discriminator))
  }

  /** The user object as the client sends it. */
  function UserJson(u: User): Json {
    JObject(map[
      "bot" := JBool(u.isBot),
      "id" := JString(u.id),
      "global_name" := JString(u.name),
      "flags" := JInt(u.flags),
      "avatar" := JString(u.avatar),
      "premium_type" := JInt(u.premium),
      "username" := JString(u.username),
      "discriminator" := JString(u.discriminator)])
  }

  predicate HasBool(j: Json, key: string) {
    j.JObject? && key in j.fields && j.fields[key].JBool?
  }

  predicate HasString(j: Json, key: string) {
    j.JObject? && key in j.fields && j.fields[key].JString?
  }

  predicate HasInt(j: Json, key: string) {
    j.JObject? && key in j.fields && (j.fields[key].JInt? || j.fields[key].JBool?)
  }

  /** An object with every member the decoder reads, each of a kind it converts. */
  predicate IsUserObject(j: Json) {
    && HasBool(j, "bot") && HasString(j, "id") && HasString(j, "global_name") && HasInt(j, "flags")
    && HasString(j, "avatar") && HasInt(j, "premium_type") && HasString(j, "username")
    && HasString(j, "discriminator")
  }

  /** Decoding what the client sends gives back the user. */
  lemma UserRoundTrip(u: User)
    ensures DecodeUser(UserJson(u)) == Ok(u)
  {
    var j := UserJson(u);
    assert GetBool(j, "bot") == Ok(u.isBot);
    assert GetString(j, "id") == Ok(u.id);
    assert GetString(j, "global_name") == Ok(u.name);
    assert GetInt(j, "flags") == Ok(u.flags as int);
    assert GetString(j, "avatar") == Ok(u.avatar);
    assert GetInt(j, "premium_type") == Ok(u.premium as int);
    assert GetString(j, "username") == Ok(u.username);
    assert GetString(j, "discriminator") == Ok(u.discriminator);
  }

  /** What a successful decode takes from each member. */
  lemma DecodeUserFields(j: Json)
    requires DecodeUser(j).Ok?
    ensures var u := DecodeUser(j).value;
      && u.isBot == j.fields["bot"].b
      && u.id == j.fields["id"].s
      && u.name == j.fields["global_name"].s
      && u.avatar == j.fields["avatar"].s
      && u.username == j.fields["username"].s
      && u.discriminator == j.fields["discriminator"].s
      && (j.fields["flags"].JInt? ==> u.flags == ToUInt16(j.fields["flags"].i))
      && (j.fields["flags"].JBool? ==> u.flags == if j.fields["flags"].b then 1 else 0)
      && (j.fields["premium_type"].JInt? ==> u.premium == ToUInt8(j.fields["premium_type"].i))
      && (j.fields["premium_type"].JBool? ==> u.premium == if j.fields["premium_type"].b then 1 else 0)
  {
  }

  /** The `code` member of an ERROR event's data or of a Close message, narrowed to 32 bits. */
  function ErrorCode(j: Json): (r: Result<Int32>)
    ensures r.Ok? <==> HasInt(j, "code")
    ensures r.Ok? && j.fields["code"].JInt? ==> r.value == ToInt32(j.fields["code"].i)
    ensures r.Ok? && j.fields["code"].JBool? ==> r.value == if j.fields["code"].b then 1 else 0
  {
    var code :- GetInt(j, "code");
    Ok(ToInt32(code))
  }

  /** The `message` member of an ERROR event's data or of a Close message. */
  function ErrorMessage(j: Json): (r: Result<string>)
    ensures r.Ok? <==> HasString(j, "message")
    ensures r.Ok? ==> r.value == j.fields["message"].s
  {
    GetString(j, "message")
  }
}
