/**
 * The Slack workspace directory as both the browser and the serverless
 * roster endpoint read it: raw `users.list` members, the five-part filter
 * that keeps only real people, the projection to the kiosk's user record,
 * and the shape of a `users.list` call's outcome.
 */
module SlackDirectory {
  import opened Wrappers
  import opened Text
  import Seqs

  datatype Profile = Profile(email: Option<string>, displayName: Option<string>, realName: Option<string>)

  /** A recipient the kiosk can notify: `{ id, name, real_name, profile? }`. */
  datatype SlackUser = SlackUser(id: string, name: string, realName: string, profile: Option<Profile>)

  /** A raw `users.list` member; a missing boolean flag reads as false. */
  datatype Member = Member(
    id: string,
    name: string,
    realName: Option<string>,
    deleted: bool,
    isBot: bool,
    isAppUser: bool,
    profile: Option<Profile>)

  /** The JSON body of a `users.list` response, or a body that does not parse. */
  datatype SlackBody =
    | Unparseable
    | SlackJson(ok: bool, error: Option<string>, members: Option<seq<Member>>)

  /** What a `fetch` of `users.list` ended in: a thrown error or an HTTP response. */
  datatype SlackCall =
    | CallThrew
    | Responded(httpOk: bool, httpStatus: int, body: SlackBody)

  /** `token && token.startsWith('xoxb-')`: a bot token is configured. */
  predicate IsBotToken(token: Option<string>) {
    Truthy(token) && StartsWith(token.value, "xoxb-")
  }

  /** The member filter: not deleted, not a bot, not an app user, has a real name, is not `slackbot`. */
  predicate KeepMember(m: Member) {
    !m.deleted && !m.isBot && !m.isAppUser && Truthy(m.realName) && m.name != "slackbot"
  }

  /** `user.real_name || user.profile?.real_name || user.profile?.display_name || user.name`. */
  function DisplayRealName(m: Member): string {
    if Truthy(m.realName) then m.realName.value
    else if m.profile.Some? && Truthy(m.profile.value.realName) then m.profile.value.realName.value
    else if m.profile.Some? && Truthy(m.profile.value.displayName) then m.profile.value.displayName.value
    else m.name
  }

  /** The projection of a member to a kiosk user record. */
  function ToSlackUser(m: Member): SlackUser {
    SlackUser(m.id, m.name, DisplayRealName(m), m.profile)
  }

  /** The members that pass the filter, in their original order. */
  function KeptMembers(members: seq<Member>): seq<Member> {
    Seqs.Filter(members, KeepMember)
  }

  /** `members.filter(...).map(...)`. */
  function RosterFilter(members: seq<Member>): (users: seq<SlackUser>)
    ensures |users| == |KeptMembers(members)| <= |members|
    ensures forall i :: 0 <= i < |users| ==> users[i] == ToSlackUser(KeptMembers(members)[i])
  {
    var kept := KeptMembers(members);
    seq(|kept|, i requires 0 <= i < |kept| => ToSlackUser(kept[i]))
  }

  /** A member is represented in the roster exactly when it passes the filter. */
  lemma RosterFilterKeepsExactly(members: seq<Member>)
    ensures forall i :: 0 <= i < |members| && KeepMember(members[i]) ==>
      ToSlackUser(members[i]) in RosterFilter(members)
    ensures forall u :: u in RosterFilter(members) ==>
      exists m :: m in members && KeepMember(m) && u == ToSlackUser(m)
  {
    var kept := KeptMembers(members);
    var users := RosterFilter(members);
    forall i | 0 <= i < |members| && KeepMember(members[i])
      ensures ToSlackUser(members[i]) in users
    {
      var k :| 0 <= k < |kept| && kept[k] == members[i];
      assert users[k] == ToSlackUser(members[i]);
    }
    forall u | u in users
      ensures exists m :: m in members && KeepMember(m) && u == ToSlackUser(m)
    {
      var k :| 0 <= k < |users| && users[k] == u;
      assert kept[k] in members && KeepMember(kept[k]);
    }
  }

  /** Each roster entry keeps its member's own `real_name`, which is non-empty, and no entry is `slackbot`. */
  lemma RosterFilterRealNames(members: seq<Member>)
    ensures forall i :: 0 <= i < |RosterFilter(members)| ==>
      && KeptMembers(members)[i].realName == Some(RosterFilter(members)[i].realName)
      && RosterFilter(members)[i].realName != ""
      && RosterFilter(members)[i].name != "slackbot"
  {
    var kept := KeptMembers(members);
    forall i | 0 <= i < |kept|
      ensures KeepMember(kept[i])
    {
      assert kept[i] in kept;
    }
  }

  /** The roster of a concatenation is the concatenation of the rosters: the order of members is kept. */
  lemma RosterFilterAppend(a: seq<Member>, b: seq<Member>)
    ensures RosterFilter(a + b) == RosterFilter(a) + RosterFilter(b)
  {
    Seqs.FilterAppend(a, b, KeepMember);
  }
}
