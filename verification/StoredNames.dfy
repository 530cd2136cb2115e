/** The text that the property and subgroup columns hold: the keys of `COUNT_STATS` and what the queries select. */
module StoredNames {
  import opened Integers
  import opened Options
  import opened CountTables

  function PropertyName(p: Property): string {
    match p
    case MessagesSentIsBotHour => "messages_sent:is_bot:hour"
    case MessagesSentMessageTypeDay => "messages_sent:message_type:day"
    case MessagesSentClientDay => "messages_sent:client:day"
    case MessagesInStreamIsBotDay => "messages_in_stream:is_bot:day"
    case ActiveUsersAuditIsBotDay => "active_users_audit:is_bot:day"
    case ActiveUsersLogIsBotDay => "active_users_log:is_bot:day"
    case ActiveUsersIsBotDay => "active_users:is_bot:day"
    case MessagesReadHour => "messages_read::hour"
    case MessagesReadInteractionsHour => "messages_read_interactions::hour"
    case OneDayActivesDay => "1day_actives::day"
    case SevenDayActivesDay => "7day_actives::day"
    case FifteenDayActivesDay => "15day_actives::day"
    case MinutesActiveDay => "minutes_active::day"
    case InvitesSentDay => "invites_sent::day"
    case RealmActiveHumansDay => "realm_active_humans::day"
  }

  function KindName(kind: MessageType): string {
    match kind
    case PublicStream => "public_stream"
    case PrivateStream => "private_stream"
    case PrivateMessage => "private_message"
    case HuddleMessage => "huddle_message"
  }

  /** The queries select a boolean column, whose text is lower-case; the one logged boolean is a Python value. */
  function BoolText(p: Property, flag: bool): string {
    if p == ActiveUsersLogIsBotDay then (if flag then "True" else "False")
    else if flag then "true" else "false"
  }

  function SubgroupText(p: Property, s: Subgroup): Option<string> {
    match s
    case NoSubgroup => None
    case IsBot(flag) => Some(BoolText(p, flag))
    case Client(id) => Some(Print(id))
    case Kind(messageType) => Some(KindName(messageType))
  }

  lemma NamesDiffer(p: Property, q: Property)
    requires PropertyName(p) == PropertyName(q)
    ensures p == q
  {
  }

  /** A character that no printed number has, and by which the texts of one property differ. */
  function Mark(p: Property, s: Subgroup): char {
    match s
    case IsBot(flag) => if p == ActiveUsersLogIsBotDay then (if flag then 'T' else 'F') else if flag then 't' else 'f'
    case Kind(HuddleMessage) => 'h'
    case _ => 'p'
  }

  lemma MarkIsThere(p: Property, s: Subgroup)
    requires s.IsBot? || s.Kind?
    ensures var text := SubgroupText(p, s).value; text != "" && text[0] == Mark(p, s) && Mark(p, s) > '9'
  {
  }

  lemma ClientsDiffer(p: Property, id: int, s: Subgroup)
    requires SubgroupText(p, s) == Some(Print(id))
    ensures s == Client(id)
  {
    ReadPrinted(id);
    assert Print(id)[0] in Print(id);
    if s.Client? {
      ReadPrinted(s.id);
    } else {
      MarkIsThere(p, s);
    }
  }

  lemma SubgroupsDiffer(p: Property, a: Subgroup, b: Subgroup)
    requires SubgroupText(p, a) == SubgroupText(p, b)
    ensures a == b
  {
    if a.Client? {
      ClientsDiffer(p, a.id, b);
    } else if b.Client? {
      ClientsDiffer(p, b.id, a);
    } else if a != NoSubgroup {
      MarkIsThere(p, a);
      MarkIsThere(p, b);
    }
  }
}
