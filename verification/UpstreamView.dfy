/** The delivered headers from the upstream's side: what it reads back is the signed-in user. */
module UpstreamView {
  import opened Basics
  import opened Text
  import opened Roles
  import opened DisplayName
  import opened Headers

  /** The value of a header that is there exactly once. */
  function Single(d: HeaderMap, k: string): Option<string> {
    if k in d && |d[k]| == 1 then Some(d[k][0]) else None
  }

  function ReadId(d: HeaderMap): Option<int> {
    match Single(d, "X-Forge-User-Id")
    case None => None
    case Some(value) => Atoi(value)
  }

  function ReadRoles(d: HeaderMap): Option<seq<string>> {
    match Single(d, "X-Forge-Roles")
    case None => None
    case Some(value) => ParseRoles(value)
  }

  lemma SingleValue(h: HeaderMap, secret: string, u: User, i: nat)
    requires AllCanonical(h) && i < |FORGE_NAMES|
    ensures Single(Delivered(h, secret, u), FORGE_NAMES[i]) == Some(ForgePairs(secret, u)[i].1)
  {
    ForgeHeadersExact(h, secret, u);
    hide Delivered, ForgePairs, AllCanonical;
    assert FORGE_NAMES[i] in Delivered(h, secret, u);
  }

  /** Whatever the client sent, the upstream reads the user's own id, profile and roles, and the name
      unless it is an ASCII name that begins like an encoded one. */
  lemma UpstreamReadsUser(h: HeaderMap, secret: string, u: User)
    requires AllCanonical(h) && AllValid(u.roles)
    ensures var d := Delivered(h, secret, u);
      && Single(d, "X-Forge-Proxy-Secret") == Some(secret)
      && Single(d, "X-Forge-Contract-Version") == Some("1")
      && ReadId(d) == Some(u.id)
      && Single(d, "X-Forge-Email") == Some(u.email)
      && Single(d, "X-Forge-Avatar") == Some(u.avatarUrl)
      && ReadRoles(d) == Some(u.roles)
      && Single(d, "X-Forge-Slack-User-Id") == Some(u.slackUserId)
      && Single(d, "X-Forge-Slack-Team-Id") == Some(u.slackTeamId)
      && (forall value: Bytes :: Single(d, "X-Forge-Name") == Some(value) ==>
            (Decode(value) == Some(u.name) <==> !(IsAscii(u.name) && PREFIX <= u.name)))
      && Single(d, "X-Forge-Name").Some?
  {
    ParseUndoesJoin(u.roles);
    AtoiUndoesFormat(u.id);
    NameComesBackIff(u.name);
    forall i | 0 <= i < |FORGE_NAMES|
      ensures Single(Delivered(h, secret, u), FORGE_NAMES[i]) == Some(ForgePairs(secret, u)[i].1)
    {
      SingleValue(h, secret, u, i);
    }
    hide Delivered, AllCanonical, Single, ParseRoles, Join, Atoi, FormatInt, Encode, Decode, IsAscii;
    var d := Delivered(h, secret, u);
    assert Single(d, FORGE_NAMES[0]) == Some(secret) && Single(d, FORGE_NAMES[1]) == Some("1");
    assert Single(d, FORGE_NAMES[2]) == Some(FormatInt(u.id)) && Single(d, FORGE_NAMES[3]) == Some(u.email);
    assert Single(d, FORGE_NAMES[4]) == Some(Encode(u.name)) && Single(d, FORGE_NAMES[5]) == Some(u.avatarUrl);
    assert Single(d, FORGE_NAMES[6]) == Some(Join(u.roles, ",")) && Single(d, FORGE_NAMES[7]) == Some(u.slackUserId);
    assert Single(d, FORGE_NAMES[8]) == Some(u.slackTeamId);
  }
}
