/** The shape of one audit-log entry as stored in the input JSON (`JSONAuditLogsEntry`),
    together with the pieces of discord.js and of the static inputs the formatter reads. */
module Types {
  import opened Wrappers

  /** `AuditLogEvent`: the event codes the formatter recognises, and any other member of the
      enumeration, carried by its enumeration name. */
  datatype Action =
    | MemberBanAdd | MemberKick | IntegrationDelete | RoleUpdate | MemberRoleUpdate
    | RoleCreate | ChannelUpdate | GuildUpdate | RoleDelete | MemberPrune | ChannelDelete
    | ChannelOverwriteUpdate | ChannelOverwriteCreate | BotAdd | IntegrationCreate
    | InviteCreate | EmojiDelete | ChannelCreate | MessageDelete | MemberBanRemove
    | MessageBulkDelete | ChannelOverwriteDelete
    | OtherEvent(name: string)

  /** `AuditLogEvent[action]`: the enumeration name of an event code. */
  function EventName(a: Action): string {
    match a
    case MemberBanAdd => "MemberBanAdd"
    case MemberKick => "MemberKick"
    case IntegrationDelete => "IntegrationDelete"
    case RoleUpdate => "RoleUpdate"
    case MemberRoleUpdate => "MemberRoleUpdate"
    case RoleCreate => "RoleCreate"
    case ChannelUpdate => "ChannelUpdate"
    case GuildUpdate => "GuildUpdate"
    case RoleDelete => "RoleDelete"
    case MemberPrune => "MemberPrune"
    case ChannelDelete => "ChannelDelete"
    case ChannelOverwriteUpdate => "ChannelOverwriteUpdate"
    case ChannelOverwriteCreate => "ChannelOverwriteCreate"
    case BotAdd => "BotAdd"
    case IntegrationCreate => "IntegrationCreate"
    case InviteCreate => "InviteCreate"
    case EmojiDelete => "EmojiDelete"
    case ChannelCreate => "ChannelCreate"
    case MessageDelete => "MessageDelete"
    case MemberBanRemove => "MemberBanRemove"
    case MessageBulkDelete => "MessageBulkDelete"
    case ChannelOverwriteDelete => "ChannelOverwriteDelete"
    case OtherEvent(name) => name
  }

  /** A role as listed in a `$add` / `$remove` change (`APIRole`, the two fields used). */
  datatype Role = Role(name: string, id: string)

  /** A JSON value held in a change record. `Bits(field)` is a permission bit-field, which the
      platform serialises as the decimal text of `field` (never empty, so always truthy). */
  datatype Value =
    | Null
    | Bool(b: bool)
    | Num(n: int)
    | Str(s: string)
    | Bits(field: nat)
    | RoleList(roles: seq<Role>)

  /** One `AuditLogChange`: `{ key, old?, new? }`; `None` is an absent (`undefined`) side. */
  datatype Change = Change(key: string, oldValue: Option<Value>, newValue: Option<Value>)

  /** The two JSON shapes of `extra.channel`: an object whose `id` may be absent, or a bare
      id string (whose `.id` reads as `undefined`). */
  datatype Channel = ChannelObject(id: Option<string>) | ChannelId(value: string)

  /** The fields of the loosely typed `extra` payload that the formatter reads. */
  datatype Extra = Extra(
    id: Option<string>,
    removed: Option<int>,
    days: Option<int>,
    count: Option<int>,
    channel: Option<Channel>)

  /** `JSONAuditLogsEntry`; `extra == None` is a `null` payload. */
  datatype Entry = Entry(
    targetType: string,
    actionType: string,
    action: Action,
    reason: Option<string>,
    executorId: Option<string>,
    executor: Option<string>,
    changes: seq<Change>,
    id: string,
    extra: Option<Extra>,
    targetId: Option<string>,
    createdTimestamp: int)

  /** One entry of discord.js' permission flag table: a flag name and its bit index. */
  datatype Flag = Flag(name: string, bit: nat)

  /** The static inputs every formatting call reads: the id-to-name table (`nameMap.json`),
      the permission flag table in discord.js' order, the repository address
      (`package.json`), the UTC date rendering (`parseUTCDate`, which depends on the
      platform's `Date`) and the locale's rendering of a number (`toLocaleString`). */
  datatype Config = Config(
    names: map<string, string>,
    flags: seq<Flag>,
    repositoryUrl: string,
    utcDate: int -> string,
    localeNumber: int -> string)
}
