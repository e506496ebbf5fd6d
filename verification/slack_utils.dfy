/**
 * The kiosk's Slack integration: loading the directory (with the built-in
 * demo roster as the fallback), resolving the typed "person to meet" to a
 * directory entry, deciding which delivery channel a notification goes
 * through, and reporting whether Slack is configured at all.
 *
 * The build-time environment, every network call and its result are
 * parameters; a call's outcome says whether it threw and what it returned.
 */
module SlackUtils {
  import opened Wrappers
  import opened Text
  import opened SlackDirectory
  import Seqs

  /** The two build-time settings the integration reads. */
  datatype SlackEnv = SlackEnv(botToken: Option<string>, webhookUrl: Option<string>)

  /** `webhook && webhook.startsWith('https://hooks.slack.com/')`. */
  predicate IsHooksUrl(url: Option<string>) {
    Truthy(url) && StartsWith(url.value, "https://hooks.slack.com/")
  }

  function MockUser(id: string, handle: string, realName: string): SlackUser {
    SlackUser(id, handle, realName, Some(Profile(Some(handle + "@growthjockey.com"), None, None)))
  }

  /** The demo roster served whenever the directory cannot be read. */
  const MockSlackUsers: seq<SlackUser> := [
    MockUser("U123456", "john.doe", "John Doe"),
    MockUser("U234567", "jane.smith", "Jane Smith"),
    MockUser("U345678", "mike.johnson", "Mike Johnson"),
    MockUser("U456789", "sarah.wilson", "Sarah Wilson"),
    MockUser("U567890", "david.brown", "David Brown"),
    MockUser("U678901", "lisa.davis", "Lisa Davis"),
    MockUser("U789012", "tom.miller", "Tom Miller"),
    MockUser("U890123", "amy.garcia", "Amy Garcia"),
    MockUser("U901234", "robert.lee", "Robert Lee"),
    MockUser("U012345", "emily.chen", "Emily Chen"),
    MockUser("U112233", "alex.kumar", "Alex Kumar"),
    MockUser("U223344", "priya.sharma", "Priya Sharma")
  ]

  /** The call succeeded with `ok` set and a member list: the only outcome that yields a live roster. */
  predicate LiveRoster(call: SlackCall) {
    && call.Responded? && call.httpOk
    && call.body.SlackJson? && call.body.ok && call.body.members.Some?
  }

  /**
   * `fetchSlackUsers`: with a bot token, ask `users.list` and return the
   * filtered members; any other outcome, including no token, an HTTP error,
   * `ok: false`, a missing member list or a thrown error, yields the demo roster.
   */
  method FetchSlackUsers(env: SlackEnv, call: SlackCall) returns (users: seq<SlackUser>)
    ensures IsBotToken(env.botToken) && LiveRoster(call) ==> users == RosterFilter(call.body.members.value)
    ensures !(IsBotToken(env.botToken) && LiveRoster(call)) ==> users == MockSlackUsers
    ensures !(IsBotToken(env.botToken) && LiveRoster(call)) ==> |users| == 12
  {
    if IsBotToken(env.botToken) {
      match call {
        case CallThrew =>
          return MockSlackUsers;
        case Responded(httpOk, _, body) =>
          if httpOk {
            match body {
              case Unparseable =>
                return MockSlackUsers;
              case SlackJson(ok, _, members) =>
                if ok && members.Some? {
                  return RosterFilter(members.value);
                }
            }
          }
      }
    }
    users := MockSlackUsers;
  }

  /** The two ways a notification can go out, in the order they are tried. */
  datatype Channel = DirectMessage | Webhook

  /** `chat.postMessage`: thrown (network error, unparseable reply) or a reply whose `ok` flag is given. */
  datatype DirectReply = DirectThrew | DirectReplied(ok: bool)

  /** The incoming-webhook POST: thrown, or a response whose `response.ok` is given. */
  datatype WebhookReply = WebhookThrew | WebhookResponded(ok: bool)

  predicate ChannelThrew(c: Channel, dm: DirectReply, hook: WebhookReply) {
    match c
    case DirectMessage => dm.DirectThrew?
    case Webhook => hook.WebhookThrew?
  }

  predicate ChannelDelivered(c: Channel, dm: DirectReply, hook: WebhookReply) {
    match c
    case DirectMessage => dm == DirectReplied(true)
    case Webhook => hook == WebhookResponded(true)
  }

  /** The one way a send answers false: a channel it calls throws. */
  predicate SendThrows(env: SlackEnv, dm: DirectReply, hook: WebhookReply) {
    || (IsBotToken(env.botToken) && dm.DirectThrew?)
    || (IsHooksUrl(env.webhookUrl) && (!IsBotToken(env.botToken) || dm == DirectReplied(false)) && hook.WebhookThrew?)
  }

  /**
   * `sendSlackNotification`: try a direct message when a bot token is set,
   * then the webhook when a hooks URL is set, stopping at the first channel
   * that delivers. It answers false only when a call throws; when nothing
   * is configured or every tried channel declines, it still answers true.
   * `tried` lists the channels called, in order.
   */
  method SendSlackNotification(env: SlackEnv, dm: DirectReply, hook: WebhookReply)
    returns (sent: bool, tried: seq<Channel>)
    ensures DirectMessage in tried <==> IsBotToken(env.botToken)
    ensures Webhook in tried <==>
      IsHooksUrl(env.webhookUrl) && (!IsBotToken(env.botToken) || dm == DirectReplied(false))
    ensures |tried| <= 2 && (|tried| == 2 ==> tried == [DirectMessage, Webhook])
    ensures forall i :: 0 <= i < |tried| - 1 ==>
      !ChannelThrew(tried[i], dm, hook) && !ChannelDelivered(tried[i], dm, hook)
    ensures !sent <==> exists i :: 0 <= i < |tried| && ChannelThrew(tried[i], dm, hook)
    ensures sent <==> !SendThrows(env, dm, hook)
  {
    tried := [];
    if IsBotToken(env.botToken) {
      tried := [DirectMessage];
      match dm {
        case DirectThrew =>
          return false, tried;
        case DirectReplied(ok) =>
          if ok {
            return true, tried;
          }
      }
    }
    if IsHooksUrl(env.webhookUrl) {
      tried := tried + [Webhook];
      match hook {
        case WebhookThrew =>
          return false, tried;
        case WebhookResponded(ok) =>
          if ok {
            return true, tried;
          }
      }
    }
    sent := true;
  }

  /** `isSlackConfigured()`: a bot token or a hooks URL is set. */
  function IsSlackConfigured(env: SlackEnv): (r: bool)
    ensures r <==> IsBotToken(env.botToken) || IsHooksUrl(env.webhookUrl)
  {
    (Truthy(env.botToken) && StartsWith(env.botToken.value, "xoxb-"))
    || (Truthy(env.webhookUrl) && StartsWith(env.webhookUrl.value, "https://hooks.slack.com/"))
  }

  datatype SlackStatus = SlackStatus(configured: bool, hasBot: bool, hasWebhook: bool)

  /** `getSlackStatus()`: which channels are usable, for display. */
  function GetSlackStatus(env: SlackEnv): (r: SlackStatus)
    ensures r.hasBot <==> IsBotToken(env.botToken)
    ensures r.hasWebhook <==> IsHooksUrl(env.webhookUrl)
  {
    var hasBot := IsBotToken(env.botToken);
    var hasWebhook := IsHooksUrl(env.webhookUrl);
    SlackStatus(hasBot || hasWebhook, hasBot, hasWebhook)
  }

  /** The status panel and the submit path agree on whether Slack is configured. */
  lemma StatusAgreesWithConfigured(env: SlackEnv)
    ensures GetSlackStatus(env).configured == IsSlackConfigured(env)
    ensures GetSlackStatus(env).configured <==> GetSlackStatus(env).hasBot || GetSlackStatus(env).hasWebhook
  {
  }

  // ---------------------------------------------------------------------
  // Resolving the person to meet
  // ---------------------------------------------------------------------

  /** `name.toLowerCase().trim()`. */
  function SearchName(name: string): string {
    Trim(Lower(name))
  }

  /** Stage 1: the real name, handle or display name equals the query. */
  predicate ExactMatch(u: SlackUser, q: string) {
    || Lower(u.realName) == q
    || Lower(u.name) == q
    || (u.profile.Some? && u.profile.value.displayName.Some? && Lower(u.profile.value.displayName.value) == q)
  }

  /** Stage 2: the real name, handle, display name or email contains the query. */
  predicate PartialMatch(u: SlackUser, q: string) {
    || Contains(Lower(u.realName), q)
    || Contains(Lower(u.name), q)
    || (u.profile.Some? && u.profile.value.displayName.Some? && Contains(Lower(u.profile.value.displayName.value), q))
    || (u.profile.Some? && u.profile.value.email.Some? && Contains(Lower(u.profile.value.email.value), q))
  }

  /** Stage 3: some space-separated word of the real name contains some part of the query. */
  predicate TokenMatch(u: SlackUser, parts: seq<string>) {
    var words := Split(Lower(u.realName), ' ');
    exists i, j :: 0 <= i < |parts| && 0 <= j < |words| && Contains(words[j], parts[i])
  }

  datatype Stage = Exact | Partial | Token

  predicate StageMatch(stage: Stage, u: SlackUser, q: string) {
    match stage
    case Exact => ExactMatch(u, q)
    case Partial => PartialMatch(u, q)
    case Token => TokenMatch(u, Split(q, ' '))
  }

  predicate AnyMatch(users: seq<SlackUser>, stage: Stage, q: string) {
    exists i :: 0 <= i < |users| && StageMatch(stage, users[i], q)
  }

  /** `u` is the first user of the roster that matches at this stage. */
  ghost predicate IsFirstMatch(users: seq<SlackUser>, stage: Stage, q: string, u: SlackUser) {
    exists k :: 0 <= k < |users| && users[k] == u && StageMatch(stage, u, q)
      && forall j :: 0 <= j < k ==> !StageMatch(stage, users[j], q)
  }

  function FindAt(users: seq<SlackUser>, stage: Stage, q: string): (r: Option<SlackUser>)
    ensures r.Some? <==> AnyMatch(users, stage, q)
    ensures r.Some? ==> IsFirstMatch(users, stage, q, r.value)
  {
    var k := Seqs.FirstIndex(users, (u: SlackUser) => StageMatch(stage, u, q));
    if k.Some? then Some(users[k.value]) else None
  }

  /**
   * `findSlackUserByName`: the first exact match; failing that, the first
   * substring match; failing that, and only when the query has a space,
   * the first word match. The first hit of the earliest stage wins.
   */
  function FindSlackUserByName(users: seq<SlackUser>, name: string): (r: Option<SlackUser>)
    ensures r.Some? ==> r.value in users
    ensures AnyMatch(users, Exact, SearchName(name)) ==>
      r.Some? && IsFirstMatch(users, Exact, SearchName(name), r.value)
    ensures !AnyMatch(users, Exact, SearchName(name)) && AnyMatch(users, Partial, SearchName(name)) ==>
      r.Some? && IsFirstMatch(users, Partial, SearchName(name), r.value)
    ensures (!AnyMatch(users, Exact, SearchName(name)) && !AnyMatch(users, Partial, SearchName(name))
             && |Split(SearchName(name), ' ')| > 1) ==>
      (r.Some? <==> AnyMatch(users, Token, SearchName(name)))
      && (r.Some? ==> IsFirstMatch(users, Token, SearchName(name), r.value))
    ensures (!AnyMatch(users, Exact, SearchName(name)) && !AnyMatch(users, Partial, SearchName(name))
             && |Split(SearchName(name), ' ')| <= 1) ==> r.None?
  {
    var q := SearchName(name);
    var exact := FindAt(users, Exact, q);
    if exact.Some? then exact
    else
      var partial := FindAt(users, Partial, q);
      if partial.Some? then partial
      else if |Split(q, ' ')| > 1 then FindAt(users, Token, q)
      else None
  }

  /** The word stage runs exactly when the cleaned query contains a space. */
  lemma TokenStageNeedsSpace(name: string)
    ensures |Split(SearchName(name), ' ')| > 1 <==> ' ' in SearchName(name)
  {
    CountPositive(SearchName(name), ' ');
  }

  /** A blank query is not rejected: every string contains the empty string, so some user is returned. */
  lemma BlankQueryFindsSomeone(users: seq<SlackUser>, name: string)
    requires |users| > 0
    requires forall i :: 0 <= i < |name| ==> IsWhitespace(name[i])
    ensures FindSlackUserByName(users, name).Some?
  {
    TrimLowerBlank(name);
    ContainsEmpty(Lower(users[0].realName));
    assert StageMatch(Partial, users[0], SearchName(name));
  }

  /** No user of the roster matches the query at the given stage. */
  predicate NoMatchUpTo(users: seq<SlackUser>, stage: Stage, q: string) {
    forall i :: 0 <= i < |users| ==> !StageMatch(stage, users[i], q)
  }

  /** When the roster's first user matches at the first stage anyone matches at, it is the answer. */
  lemma FirstUserWins(users: seq<SlackUser>, name: string, stage: Stage)
    requires |users| > 0 && StageMatch(stage, users[0], SearchName(name))
    requires stage != Exact ==> NoMatchUpTo(users, Exact, SearchName(name))
    requires stage == Token ==> NoMatchUpTo(users, Partial, SearchName(name))
    requires stage == Token ==> |Split(SearchName(name), ' ')| > 1
    ensures FindSlackUserByName(users, name) == Some(users[0])
  {
  }

  lemma LowerAnnRoster()
    ensures Lower("Ann") == "ann" && Lower("Jo Ann") == "jo ann" && Lower("jo.ann") == "jo.ann"
    ensures Lower("ann") == "ann"
  {
  }

  lemma AnnInJoAnn()
    ensures Contains("jo.ann", "ann")
  {
    assert OccursAt("jo.ann", "ann", 3);
    ContainsIff("jo.ann", "ann");
  }

  /** The first user with an exact match is the answer, whatever matches before it at later stages. */
  lemma FirstExactWins(users: seq<SlackUser>, name: string, k: nat)
    requires k < |users| && StageMatch(Exact, users[k], SearchName(name))
    requires forall j :: 0 <= j < k ==> !StageMatch(Exact, users[j], SearchName(name))
    ensures FindSlackUserByName(users, name) == Some(users[k])
  {
  }

  function JoAnn(): SlackUser { SlackUser("U1", "jo.ann", "Jo Ann", None) }
  function Ann(): SlackUser { SlackUser("U2", "ann", "Ann", None) }

  lemma AnnSearchName(name: string)
    requires name == "Ann"
    ensures SearchName(name) == "ann"
  {
    LowerAnnRoster();
    SearchNameOfClean("ann");
  }

  lemma AnnRosterExact(q: string)
    requires q == "ann"
    ensures StageMatch(Exact, Ann(), q) && !StageMatch(Exact, JoAnn(), q)
  {
    LowerAnnRoster();
  }

  lemma AnnRosterPartial(q: string)
    requires q == "ann"
    ensures StageMatch(Partial, JoAnn(), q)
  {
    LowerAnnRoster();
    AnnInJoAnn();
  }

  /** In the roster `[Jo Ann, Ann]`, the query "Ann" is a substring of the first user's handle... */
  lemma AnnIsSubstringOfFirst(users: seq<SlackUser>, name: string)
    requires users == [JoAnn(), Ann()]
    requires name == "Ann"
    ensures StageMatch(Partial, users[0], SearchName(name))
  {
    AnnSearchName(name);
    AnnRosterPartial(SearchName(name));
  }

  /** ...yet the later exact match is the answer: an exact match beats an earlier substring match. */
  lemma ExactBeatsEarlierSubstring(users: seq<SlackUser>, name: string)
    requires users == [JoAnn(), Ann()]
    requires name == "Ann"
    ensures FindSlackUserByName(users, name) == Some(users[1])
  {
    var q := SearchName(name);
    AnnSearchName(name);
    AnnRosterExact(q);
    assert users[0] == JoAnn() && users[1] == Ann();
    assert forall j :: 0 <= j < 1 ==> !StageMatch(Exact, users[j], q);
    FirstExactWins(users, name, 1);
  }

  function JaneSmith(): SlackUser { SlackUser("U2", "jane.smith", "Jane Smith", None) }
  function JohnDoe(): SlackUser { SlackUser("U1", "john.doe", "John Doe", None) }

  lemma LowerTwoPersonRoster()
    ensures Lower("Jane Smith") == "jane smith" && Lower("jane.smith") == "jane.smith"
    ensures Lower("John Doe") == "john doe" && Lower("john.doe") == "john.doe"
  {
  }

  /** A query without uppercase letters or surrounding spaces is its own search name. */
  lemma SearchNameOfClean(q: string)
    requires q != [] && !IsWhitespace(q[0]) && !IsWhitespace(q[|q| - 1])
    requires forall i :: 0 <= i < |q| ==> !IsAsciiUpper(q[i])
    ensures SearchName(q) == q
  {
    assert forall i :: 0 <= i < |q| ==> Lower(q)[i] == q[i];
    assert Lower(q) == q;
    TrimOfClean(q);
  }

  /** Of the two-person roster, "jane smith" resolves at the exact stage to Jane Smith. */
  lemma ResolveExactName(users: seq<SlackUser>, name: string)
    requires users == [JaneSmith(), JohnDoe()] && name == "jane smith"
    ensures FindSlackUserByName(users, name) == Some(JaneSmith())
  {
    SearchNameOfClean(name);
    LowerTwoPersonRoster();
    FirstUserWins(users, name, Exact);
  }

  lemma SmiInJaneSmith()
    ensures Contains("jane smith", "smi")
  {
    assert OccursAt("jane smith", "smi", 5);
    ContainsIff("jane smith", "smi");
  }

  /** "smi" is no one's exact name but is a substring of Jane Smith's. */
  lemma ResolveSubstring(users: seq<SlackUser>, name: string)
    requires users == [JaneSmith(), JohnDoe()] && name == "smi"
    ensures FindSlackUserByName(users, name) == Some(JaneSmith())
  {
    SearchNameOfClean(name);
    assert NoMatchUpTo(users, Exact, name) by {
      LowerTwoPersonRoster();
    }
    assert StageMatch(Partial, users[0], name) by {
      LowerTwoPersonRoster();
      SmiInJaneSmith();
    }
    FirstUserWins(users, name, Partial);
  }

  /** Every character of a contained string occurs in the containing one. */
  lemma ContainedCharsOccur(s: string, sub: string, k: nat)
    requires k < |sub|
    ensures Contains(s, sub) ==> sub[k] in s
  {
    ContainsIff(s, sub);
    if Contains(s, sub) {
      var i :| OccursAt(s, sub, i);
      assert s[i..i + |sub|][k] == sub[k];
    }
  }

  /** A string missing one of the characters of `sub` does not contain `sub`. */
  lemma AbsentCharNotContained(s: string, sub: string, k: nat)
    requires k < |sub| && sub[k] !in s
    ensures !Contains(s, sub)
  {
    ContainedCharsOccur(s, sub, k);
  }

  /** No name in the two-person roster contains a 'z'. */
  lemma NoZInTwoPersonRoster(s: string, sub: string)
    requires s in ["jane smith", "jane.smith", "john doe", "john.doe"]
    requires sub == "zzz"
    ensures !Contains(s, sub)
  {
    assert 'z' !in s;
    AbsentCharNotContained(s, sub, 0);
  }

  /** Neither user of the two-person roster matches "zzz" at the substring stage. */
  lemma TwoPersonNoZ(u: SlackUser, q: string)
    requires u == JaneSmith() || u == JohnDoe()
    requires q == "zzz"
    ensures !StageMatch(Partial, u, q)
  {
    LowerTwoPersonRoster();
    NoZInTwoPersonRoster(Lower(u.realName), q);
    NoZInTwoPersonRoster(Lower(u.name), q);
  }

  /** A query that matches no one at the first two stages and has no space finds no one. */
  lemma NoStageMatches(users: seq<SlackUser>, name: string)
    requires NoMatchUpTo(users, Exact, SearchName(name)) && NoMatchUpTo(users, Partial, SearchName(name))
    requires ' ' !in SearchName(name)
    ensures FindSlackUserByName(users, name) == None
  {
    TokenStageNeedsSpace(name);
  }

  lemma TwoPersonNotExact(users: seq<SlackUser>, q: string)
    requires users == [JaneSmith(), JohnDoe()] && q == "zzz"
    ensures NoMatchUpTo(users, Exact, q)
  {
    LowerTwoPersonRoster();
  }

  lemma TwoPersonNotPartial(users: seq<SlackUser>, q: string)
    requires users == [JaneSmith(), JohnDoe()] && q == "zzz"
    ensures NoMatchUpTo(users, Partial, q)
  {
    TwoPersonNoZ(users[0], q);
    TwoPersonNoZ(users[1], q);
  }

  /** "zzz" matches no one, and having no space it never reaches the word stage. */
  lemma ResolveNobody(users: seq<SlackUser>, name: string)
    requires users == [JaneSmith(), JohnDoe()] && name == "zzz"
    ensures FindSlackUserByName(users, name) == None
  {
    SearchNameOfClean(name);
    TwoPersonNotExact(users, name);
    TwoPersonNotPartial(users, name);
    NoStageMatches(users, name);
  }

  lemma SplitInitialSurname(q: string)
    requires q == "j doe"
    ensures Split(q, ' ') == ["j", "doe"]
  {
    assert Split("", ' ') == [""];
    assert Split("e", ' ') == ["e"] by { assert "e"[1..] == ""; assert ['e'] + "" == "e"; }
    assert Split("oe", ' ') == ["oe"] by { assert "oe"[1..] == "e"; assert ['o'] + "e" == "oe"; }
    assert Split("doe", ' ') == ["doe"] by { assert "doe"[1..] == "oe"; assert ['d'] + "oe" == "doe"; }
    assert Split(" doe", ' ') == ["", "doe"] by { assert " doe"[1..] == "doe"; }
    assert "j doe"[1..] == " doe";
    assert ['j'] + "" == "j";
  }

  /** The first word of "jane smith" contains "j". */
  lemma FirstWordOfJane(s: string)
    requires s == "jane smith"
    ensures Contains(Split(s, ' ')[0], "j")
  {
    var words := Split(s, ' ');
    assert s[0] == 'j';
    assert words[0][0] == 'j';
    assert words[0][..1] == "j";
  }

  /** Neither two-person name contains "j doe": the handles have no space, and in the real names a 'j' is followed by a letter. */
  lemma InitialSurnameMisses(s: string, sub: string)
    requires s in ["jane smith", "jane.smith", "john doe", "john.doe"]
    requires sub == "j doe"
    ensures !Contains(s, sub)
  {
    if s == "jane.smith" || s == "john.doe" {
      assert ' ' !in s;
      AbsentCharNotContained(s, sub, 1);
    } else if s == "jane smith" {
      assert 'd' !in s;
      AbsentCharNotContained(s, sub, 2);
    } else {
      JohnDoeMisses(s, sub);
    }
  }

  /** "john doe" has its only 'j' at the front, where "j doe" does not start. */
  lemma JohnDoeMisses(s: string, sub: string)
    requires s == "john doe" && sub == "j doe"
    ensures !Contains(s, sub)
  {
    assert !StartsWith(s, sub) by { assert s[..5][1] != ' '; }
    assert s[1..] == "ohn doe";
    AbsentCharNotContained(s[1..], sub, 0);
  }

  /** Neither user of the two-person roster matches "j doe" at the substring stage. */
  lemma TwoPersonPartialMiss(u: SlackUser, q: string)
    requires u == JaneSmith() || u == JohnDoe()
    requires q == "j doe"
    ensures !StageMatch(Partial, u, q)
  {
    LowerTwoPersonRoster();
    InitialSurnameMisses(Lower(u.realName), q);
    InitialSurnameMisses(Lower(u.name), q);
  }

  /** At the word stage, the word "jane" contains the part "j". */
  lemma JaneMatchesInitial(u: SlackUser, parts: seq<string>)
    requires u == JaneSmith()
    requires parts == ["j", "doe"]
    ensures TokenMatch(u, parts)
  {
    var words := Split(Lower(u.realName), ' ');
    LowerTwoPersonRoster();
    FirstWordOfJane(Lower(u.realName));
    assert Contains(words[0], parts[0]);
  }

  lemma InitialSurnameNotExact(users: seq<SlackUser>, name: string)
    requires users == [JaneSmith(), JohnDoe()] && name == "j doe"
    ensures NoMatchUpTo(users, Exact, name)
  {
    LowerTwoPersonRoster();
  }

  lemma InitialSurnameNotPartial(users: seq<SlackUser>, name: string)
    requires users == [JaneSmith(), JohnDoe()] && name == "j doe"
    ensures NoMatchUpTo(users, Partial, name)
  {
    TwoPersonPartialMiss(users[0], name);
    TwoPersonPartialMiss(users[1], name);
  }

  lemma InitialSurnameWord(users: seq<SlackUser>, name: string)
    requires users == [JaneSmith(), JohnDoe()] && name == "j doe"
    ensures StageMatch(Token, users[0], name)
  {
    SplitInitialSurname(name);
    JaneMatchesInitial(users[0], Split(name, ' '));
  }

  /**
   * "j doe" reaches the word stage, where "j" is contained in the word
   * "jane": the first listed user, Jane Smith, is returned, not John Doe.
   */
  lemma ResolveInitialAndSurname(users: seq<SlackUser>, name: string)
    requires users == [JaneSmith(), JohnDoe()] && name == "j doe"
    ensures FindSlackUserByName(users, name) == Some(JaneSmith())
  {
    SearchNameOfClean(name);
    InitialSurnameNotExact(users, name);
    InitialSurnameNotPartial(users, name);
    InitialSurnameWord(users, name);
    SplitInitialSurname(name);
    FirstUserWins(users, name, Token);
  }
}
