/** The markdown an audit-log entry renders to (`AuditLogsEntry.toString`) and the report the
    manager assembles from all entries (`AuditLogsEntryManager`). */
module AuditLogs {
  import opened Wrappers
  import opened Sequences
  import opened Strings
  import opened Types
  import opened Functions
  import opened EntryChanges

  // ---------------------------------------------------------------------------------------
  // What the description sentence reads from an entry
  // ---------------------------------------------------------------------------------------

  /** A `string | null` id handed to `resolveName`. */
  function IdRef(id: Option<string>): Ref {
    if id.None? then Ref.Null else Ref.Id(id.value)
  }

  /** `extra?.id ?? extra`: the payload's id, the payload itself when it has none, `null`
      without a payload. */
  function OverrideRef(extra: Option<Extra>): Ref {
    if extra.None? then Ref.Null
    else if extra.value.id.Some? then Ref.Id(extra.value.id.value)
    else Ref.Object
  }

  /** `extra?.channel?.id ?? extra?.channel`: the object's id, a bare id itself, the object
      when it has no id, `undefined` when there is no channel. */
  function ChannelRef(extra: Option<Extra>): Ref {
    if extra.None? || extra.value.channel.None? then Ref.Undefined
    else match extra.value.channel.value
      case ChannelObject(id) => if id.Some? then Ref.Id(id.value) else Ref.Object
      case ChannelId(id) => Ref.Id(id)
  }

  /** `extra?.channel?.id ?? targetId`: only a channel object with an id names the channel;
      a bare id string has no `.id`, so the target is used instead. */
  function BulkChannelRef(e: Entry): Ref {
    if e.extra.Some? && e.extra.value.channel.Some? && e.extra.value.channel.value.ChannelObject?
       && e.extra.value.channel.value.id.Some?
    then Ref.Id(e.extra.value.channel.value.id.value)
    else IdRef(e.targetId)
  }

  /** `${targetId}`: the id, or "null". */
  function IdText(id: Option<string>): string {
    RefText(IdRef(id))
  }

  /** `${extra?.count}`: the number, or "undefined". */
  function CountText(extra: Option<Extra>): string {
    if extra.Some? && extra.value.count.Some? then IntToString(extra.value.count.value)
    else "undefined"
  }

  /** `${extra?.removed?.toLocaleString()}`: the number in the locale's format, or
      "undefined". */
  function RemovedText(cfg: Config, extra: Option<Extra>): string {
    if extra.Some? && extra.value.removed.Some? then cfg.localeNumber(extra.value.removed.value)
    else "undefined"
  }

  /** `${findChange(key)?.old}` */
  function OldText(e: Entry, key: string): string {
    ValueText(OldSide(FindChange(e.changes, key)))
  }

  /** `${findChange(key)?.new}` */
  function NewText(e: Entry, key: string): string {
    ValueText(NewSide(FindChange(e.changes, key)))
  }

  /** A quoted name followed by the quoted target id in parentheses. */
  function WithTargetId(name: string, e: Entry): string {
    Quoted(name) + " (" + Quoted(IdText(e.targetId)) + ")"
  }

  /** What follows the executor's resolved name in the description of a recognised action. */
  function ActionPhrase(cfg: Config, e: Entry): string
    requires !e.action.OtherEvent?
  {
    var target := ResolveName(cfg.names, IdRef(e.targetId));
    var overrideName := ResolveName(cfg.names, OverrideRef(e.extra));
    match e.action
    case MemberBanAdd => " banned " + target
    case MemberKick => " kicked " + target
    case IntegrationDelete => " deleted the integration for " + Quoted(OldText(e, "name"))
    case RoleUpdate => " updated the role " + target
    case MemberRoleUpdate => " updated roles for " + target
    case RoleCreate => " created the role " + WithTargetId(NewText(e, "name"), e)
    case ChannelUpdate => " made changes to " + target
    case GuildUpdate => " made changes to " + WithTargetId("The Sky", e)
    case RoleDelete => " deleted the role " + WithTargetId(OldText(e, "name"), e)
    case MemberPrune => " pruned " + Quoted(RemovedText(cfg, e.extra)) + " members"
    case ChannelDelete => " removed " + WithTargetId(OldText(e, "name"), e)
    case ChannelOverwriteUpdate => " updated channel override " + overrideName + " for " + target
    case ChannelOverwriteCreate => " created channel override " + overrideName + " for " + target
    case BotAdd => " added " + target + " to the server"
    case IntegrationCreate => " added an integration for " + Quoted(NewText(e, "name"))
    case InviteCreate => " created an invite " + Quoted(NewText(e, "code"))
    case EmojiDelete => " deleted the emoji " + WithTargetId(OldText(e, "name"), e)
    case ChannelCreate => " created a channel " + WithTargetId(NewText(e, "name"), e)
    case MessageDelete =>
      " deleted " + Quoted(CountText(e.extra)) + " messages by " + target + " in " +
      ResolveName(cfg.names, ChannelRef(e.extra))
    case MemberBanRemove => " removed the ban for " + target
    case MessageBulkDelete =>
      " deleted " + Quoted(CountText(e.extra)) + " messages in " +
      ResolveName(cfg.names, BulkChannelRef(e))
    case ChannelOverwriteDelete => " removed channel override " + overrideName + " for " + target
  }

  /** How the sentence for an action the formatter does not describe opens. */
  const NotSupported := "*Description not supported*"

  /** The sentence for an action the formatter does not describe. */
  function Unsupported(cfg: Config, e: Entry): string {
    NotSupported + ". Executor and target are " +
    ResolveName(cfg.names, IdRef(e.executorId)) + " and " +
    ResolveName(cfg.names, IdRef(e.targetId)) + " respectively."
  }

  /** `desc`: every recognised action is described as the executor's resolved name followed
      by what they did; any other action gets the unsupported sentence. */
  function Description(cfg: Config, e: Entry): string {
    if e.action.OtherEvent? then Unsupported(cfg, e)
    else ResolveName(cfg.names, IdRef(e.executorId)) + ActionPhrase(cfg, e)
  }

  /** The description says "not supported" exactly for the actions outside the switch: all
      others open with a resolved name, whose first character is a backtick. */
  lemma DescriptionUnsupported(cfg: Config, e: Entry)
    ensures StartsWith(Description(cfg, e), NotSupported) <==> e.action.OtherEvent?
  {
    if e.action.OtherEvent? {
      var rest := ". Executor and target are " + ResolveName(cfg.names, IdRef(e.executorId)) +
                  " and " + ResolveName(cfg.names, IdRef(e.targetId)) + " respectively.";
      assert Description(cfg, e) == NotSupported + rest;
      PrefixOfConcat(NotSupported, rest);
    } else {
      var x := ResolveName(cfg.names, IdRef(e.executorId));
      FirstCharDiffers(x, ActionPhrase(cfg, e), NotSupported);
    }
  }

  lemma PrefixOfConcat(a: string, b: string)
    ensures StartsWith(a + b, a)
  {
    assert (a + b)[..|a|] == a;
  }

  /** A text starting with a backtick never starts with a text starting with `*`. */
  lemma FirstCharDiffers(x: string, y: string, u: string)
    requires StartsWith(x, "`") && |u| > 0 && u[0] == '*'
    ensures !StartsWith(x + y, u)
  {
    assert (x + y)[0] == x[0] == '`';
  }

  // ---------------------------------------------------------------------------------------
  // Detail items
  // ---------------------------------------------------------------------------------------

  /** The change records of the entry can be read as `toString` reads them: the permission
      records as bit-fields and, for a member role update, the role records as role lists. */
  predicate Ready(e: Entry) {
    PermissionValues(e.changes) && (e.action == MemberRoleUpdate ==> RoleValues(e.changes))
  }

  /** How the reason item opens. */
  const ReasonLead := "With reason "

  /** The reason item, present when the reason is truthy (neither `null` nor empty). */
  function ReasonItems(e: Entry): seq<string> {
    if e.reason.Some? && e.reason.value != "" then [ReasonLead + Quoted(e.reason.value)]
    else []
  }

  /** How the inactivity item of a prune opens. */
  const PruneLead := "For **"
  const PruneTail := " days** of inactivity"

  /** The items the action itself adds: the role descriptions of a member role update, the
      inactivity period of a prune when `extra.days` is truthy. */
  function ActionItems(e: Entry): seq<string>
    requires e.action == MemberRoleUpdate ==> RoleValues(e.changes)
  {
    match e.action
    case MemberRoleUpdate => RoleChangesOf(e.changes).descriptions
    case MemberPrune =>
      if e.extra.Some? && e.extra.value.days.Some? && e.extra.value.days.value != 0
      then [PruneLead + IntToString(e.extra.value.days.value) + PruneTail]
      else []
    case _ => []
  }

  /** `det`: the reason, then the permission descriptions, then the action's own items. */
  function Details(cfg: Config, e: Entry): seq<string>
    requires Ready(e)
  {
    ReasonItems(e) + PermissionsChangeOf(cfg.flags, e.changes).descriptions + ActionItems(e)
  }

  /** The details are the reason, the permission descriptions and the action's items. */
  lemma DetailsParts(cfg: Config, e: Entry, reasons: seq<string>, p: PermissionChanges,
                     items: seq<string>)
    requires Ready(e)
    requires reasons == ReasonItems(e) && items == ActionItems(e)
    requires p == PermissionsChangeOf(cfg.flags, e.changes)
    ensures Details(cfg, e) == reasons + p.descriptions + items
  {
  }

  /** The items that follow the reason open with `*` or `F`, never with the reason's `W`. */
  predicate NotReasonLike(items: seq<string>) {
    forall i :: 0 <= i < |items| ==> |items[i]| > 0 && items[i][0] != 'W'
  }

  lemma ActionItemsNotReasonLike(e: Entry)
    requires e.action == MemberRoleUpdate ==> RoleValues(e.changes)
    ensures NotReasonLike(ActionItems(e))
  {
    if e.action == MemberRoleUpdate {
      var c := RoleChangesOf(e.changes);
      RoleDescriptionsBold(c.adds, c.removes);
    } else if e.action == MemberPrune {
      assert PruneLead[0] == 'F';
    }
  }

  /** The first detail item is the reason exactly when the reason is truthy. */
  lemma ReasonFirst(cfg: Config, e: Entry)
    requires Ready(e)
    ensures var det := Details(cfg, e);
            (e.reason.Some? && e.reason.value != "") <==>
            |det| > 0 && StartsWith(det[0], ReasonLead)
  {
    var p := PermissionsChangeOf(cfg.flags, e.changes);
    var rest := p.descriptions + ActionItems(e);
    assert NotReasonLike(rest) by {
      PermissionDescriptionsBold(p.permsGrant, p.permsDeny, p.overwriteGrant, p.overwriteDeny,
                                 p.overwriteReset);
      ActionItemsNotReasonLike(e);
    }
    ReasonBeforeRest(e, rest);
  }

  lemma ReasonBeforeRest(e: Entry, rest: seq<string>)
    requires NotReasonLike(rest)
    ensures var det := ReasonItems(e) + rest;
            (e.reason.Some? && e.reason.value != "") <==>
            |det| > 0 && StartsWith(det[0], ReasonLead)
  {
    var det := ReasonItems(e) + rest;
    if e.reason.Some? && e.reason.value != "" {
      PrefixOfConcat(ReasonLead, Quoted(e.reason.value));
    } else if |det| > 0 {
      assert det[0] == rest[0];
      assert ReasonLead[0] == 'W';
    }
  }

  // ---------------------------------------------------------------------------------------
  // The rendered entry
  // ---------------------------------------------------------------------------------------

  /** The pieces around the header fields. */
  const Bold := "**"
  const Tick := "`"
  const DeltaOpen := "t = `"
  const RawOpen := "[`raw data`]("
  const RawClose := ")"
  const FieldSeparator := " | "

  /** The four fields of the header line: the spaced event name in bold, the UTC date, the
      time since the first entry (`delta`) and the link to the raw data. */
  function HeaderFields(cfg: Config, e: Entry, delta: string, url: string): seq<string> {
    [Bold + SpacePascalCase(EventName(e.action)) + Bold,
     Tick + cfg.utcDate(e.createdTimestamp) + Tick,
     DeltaOpen + delta + Tick,
     RawOpen + url + RawClose]
  }

  function Header(cfg: Config, first: int, url: string, e: Entry): string {
    Join(HeaderFields(cfg, e, TimeDeltaText(e.createdTimestamp - first), url), FieldSeparator)
  }

  /** The number `i + 1` and a dot, put before the first line of the `i`-th detail item. */
  function Number(i: nat): string {
    NatToString(i + 1) + ". "
  }

  /** The lines of detail item `i`: its own lines, the first one numbered. */
  function NumberedItem(i: nat, d: string): (r: seq<string>)
    ensures |r| >= 1
  {
    var ret := Split(d, '\n');
    ret[0 := Number(i) + ret[0]]
  }

  /** The numbered lines of all detail items, in order. */
  function DetailLines(det: seq<string>): (r: seq<string>)
    ensures |r| >= |det|
  {
    if |det| == 0 then []
    else DetailLines(det[..|det| - 1]) + NumberedItem(|det| - 1, det[|det| - 1])
  }

  /** Each detail item with its number in front. */
  function Numbered(det: seq<string>): (r: seq<string>)
    ensures |r| == |det|
    ensures forall i :: 0 <= i < |det| ==> r[i] == Number(i) + det[i]
  {
    seq(|det|, i requires 0 <= i < |det| => Number(i) + det[i])
  }

  /** Numbering the first line of an item is numbering the item: its lines join back to the
      item with the number in front. */
  lemma NumberedItemJoin(i: nat, d: string)
    ensures Join(NumberedItem(i, d), "\n") == Number(i) + d
  {
    var ret := Split(d, '\n');
    JoinSplit(d, '\n');
    assert NumberedItem(i, d) == [Number(i) + ret[0]] + ret[1..];
    JoinPrefixFirst(Number(i), ret, "\n");
  }

  /** The detail lines read, joined, as the numbered items one after the other: item `i` is
      numbered `i + 1` on its first line, and nothing else changes. */
  lemma {:induction false} DetailLinesJoin(det: seq<string>)
    requires |det| > 0
    ensures Join(DetailLines(det), "\n") == Join(Numbered(det), "\n")
    decreases |det|
  {
    var n := |det|;
    var init := det[..n - 1];
    NumberedItemJoin(n - 1, det[n - 1]);
    if n == 1 {
      assert DetailLines(det) == NumberedItem(0, det[0]);
    } else {
      DetailLinesJoin(init);
      JoinConcat(DetailLines(init), NumberedItem(n - 1, det[n - 1]), "\n");
      assert Numbered(det)[..n - 1] == Numbered(init);
    }
  }

  /** A number prefix has no line break. */
  lemma NumberOneLine(i: nat)
    ensures '\n' !in Number(i)
  {
    var s := NatToString(i + 1);
    assert forall k :: 0 <= k < |s| ==> IsDigit(s[k]);
  }

  /** No detail line holds a line break. */
  lemma {:induction false} DetailLinesOneLine(det: seq<string>)
    ensures forall k :: 0 <= k < |DetailLines(det)| ==> '\n' !in DetailLines(det)[k]
    decreases |det|
  {
    if |det| > 0 {
      var n := |det|;
      DetailLinesOneLine(det[..n - 1]);
      NumberOneLine(n - 1);
      var ret := Split(det[n - 1], '\n');
      assert '\n' !in ret[0];
    }
  }

  /** The callout marker on the first line of every entry. */
  const Note := "[!NOTE]"

  /** `arr` from its parts: the callout marker, the header, a blank line and the
      description, then, when there are detail items, a blank line and their numbered
      lines. */
  function BlockOf(header: string, desc: string, det: seq<string>): seq<string> {
    [Note, header, "", desc] + (if |det| > 0 then [""] + DetailLines(det) else [])
  }

  /** `arr` of an entry. */
  function Block(cfg: Config, first: int, url: string, e: Entry): seq<string>
    requires Ready(e)
  {
    BlockOf(Header(cfg, first, url, e), Description(cfg, e), Details(cfg, e))
  }

  /** The markdown quote marker put before every line. */
  const QuoteMark := "> "

  /** Every line quoted. */
  function Quote(lines: seq<string>): (r: seq<string>)
    ensures |r| == |lines|
    ensures forall i :: 0 <= i < |lines| ==> r[i] == QuoteMark + lines[i]
  {
    seq(|lines|, i requires 0 <= i < |lines| => QuoteMark + lines[i])
  }

  /** `toString()`: the quoted lines of the block, one per line. */
  function EntryText(cfg: Config, first: int, url: string, e: Entry): string
    requires Ready(e)
  {
    Join(Quote(Block(cfg, first, url, e)), "\n")
  }

  /** Quoted single lines joined by line breaks read back as those quoted lines. */
  lemma QuotedLines(block: seq<string>)
    requires |block| > 0
    requires forall i :: 0 <= i < |block| ==> '\n' !in block[i]
    ensures Split(Join(Quote(block), "\n"), '\n') == Quote(block)
  {
    var q := Quote(block);
    forall i | 0 <= i < |q|
      ensures '\n' !in q[i]
    {
      assert q[i] == QuoteMark + block[i];
      assert '\n' !in QuoteMark;
    }
    SplitJoin(q, '\n');
  }

  /** When the header and the description are single lines, the lines of the entry text are
      exactly the quoted block lines: the first is the quoted callout marker, the second the
      quoted header, the fourth the quoted description, and every line starts with `> `. */
  lemma EntryLines(cfg: Config, first: int, url: string, e: Entry)
    requires Ready(e)
    requires '\n' !in Header(cfg, first, url, e) && '\n' !in Description(cfg, e)
    ensures var lines := Split(EntryText(cfg, first, url, e), '\n');
            var block := Block(cfg, first, url, e);
            lines == Quote(block) &&
            lines[0] == QuoteMark + Note &&
            lines[1] == QuoteMark + Header(cfg, first, url, e) &&
            lines[3] == QuoteMark + Description(cfg, e) &&
            forall i :: 0 <= i < |lines| ==> StartsWith(lines[i], QuoteMark)
  {
    BlockLines(Header(cfg, first, url, e), Description(cfg, e), Details(cfg, e));
  }

  /** `toString()` quotes the elements of `arr`, not its lines: a description holding a line
      break (a name or change value with one in it) leaves the text after the break as a
      line without the quote marker, outside the callout. */
  lemma MultiLineDescriptionUnquoted(header: string, x: string, y: string)
    requires '\n' !in y && !StartsWith(y, QuoteMark)
    ensures var lines := Split(Join(Quote(BlockOf(header, x + "\n" + y, [])), "\n"), '\n');
            |lines| > 0 && lines[|lines| - 1] == y && !StartsWith(lines[|lines| - 1], QuoteMark)
  {
    var desc := x + "\n" + y;
    var q := Quote(BlockOf(header, desc, []));
    assert |q| == 4 && q[3] == QuoteMark + desc;
    var front := Join(q[..3], "\n") + "\n" + (QuoteMark + x);
    assert Join(q, "\n") == Join(q[..3], "\n") + "\n" + q[3];
    assert Join(q, "\n") == front + ['\n'] + y;
    SplitAppendPiece(front, y, '\n');
  }

  /** `BlockOf` with a one-line header and description, quoted and joined, reads back line by
      line as its quoted lines. */
  lemma BlockLines(header: string, desc: string, det: seq<string>)
    requires '\n' !in header && '\n' !in desc
    ensures var lines := Split(Join(Quote(BlockOf(header, desc, det)), "\n"), '\n');
            lines == Quote(BlockOf(header, desc, det)) &&
            lines[0] == QuoteMark + Note &&
            lines[1] == QuoteMark + header &&
            lines[3] == QuoteMark + desc &&
            forall i :: 0 <= i < |lines| ==> StartsWith(lines[i], QuoteMark)
  {
    var tail := if |det| > 0 then [""] + DetailLines(det) else [];
    assert forall i :: 0 <= i < |tail| ==> '\n' !in tail[i] by {
      DetailLinesOneLine(det);
    }
    QuotedBlockLines(header, desc, tail);
  }

  lemma QuotedBlockLines(header: string, desc: string, tail: seq<string>)
    requires '\n' !in header && '\n' !in desc
    requires forall i :: 0 <= i < |tail| ==> '\n' !in tail[i]
    ensures var block := [Note, header, "", desc] + tail;
            var lines := Split(Join(Quote(block), "\n"), '\n');
            lines == Quote(block) &&
            lines[0] == QuoteMark + Note &&
            lines[1] == QuoteMark + header &&
            lines[3] == QuoteMark + desc &&
            forall i :: 0 <= i < |lines| ==> StartsWith(lines[i], QuoteMark)
  {
    var block := [Note, header, "", desc] + tail;
    assert '\n' !in Note;
    QuotedLines(block);
    var q := Quote(block);
    forall i | 0 <= i < |q|
      ensures StartsWith(q[i], QuoteMark)
    {
      PrefixOfConcat(QuoteMark, block[i]);
    }
  }

  /** Every rendered entry opens with the quoted callout marker, whatever its lines. */
  lemma EntryStartsWithNote(cfg: Config, first: int, url: string, e: Entry)
    requires Ready(e)
    ensures StartsWith(EntryText(cfg, first, url, e), QuoteMark + Note)
    ensures var text := EntryText(cfg, first, url, e); |text| > 0 && text[0] == '>'
  {
    var q := Quote(Block(cfg, first, url, e));
    assert q[0] == QuoteMark + Note;
    JoinStartsWithFirst(q, "\n");
    assert (QuoteMark + Note)[0] == '>';
  }

  // ---------------------------------------------------------------------------------------
  // AuditLogsEntry
  // ---------------------------------------------------------------------------------------

  /** One entry of the report, bound to the manager that holds all entries. */
  class AuditLogsEntry {
    const manager: Manager
    const data: Entry

    constructor(manager: Manager, data: Entry)
      ensures this.manager == manager && this.data == data
    {
      this.manager := manager;
      this.data := data;
    }

    /** `permissionsChange`: the permission differences and their descriptions, pushed in
        the order Granted, Denied, Reset. */
    method PermissionsChange(cfg: Config) returns (c: PermissionChanges)
      requires PermissionValues(data.changes)
      ensures c == PermissionsChangeOf(cfg.flags, data.changes)
    {
      var perms := FindChange(data.changes, PermissionsKey);
      var allow := FindChange(data.changes, AllowKey);
      var deny := FindChange(data.changes, DenyKey);
      var oldPerms, newPerms := Field(OldSide(perms)), Field(NewSide(perms));
      var oldAllow, newAllow := Field(OldSide(allow)), Field(NewSide(allow));
      var oldDeny, newDeny := Field(OldSide(deny)), Field(NewSide(deny));
      var pg := Listed(cfg.flags, newPerms - oldPerms);
      var pd := if Truthy(NewSide(perms)) then Listed(cfg.flags, oldPerms - newPerms) else [];
      var og := Listed(cfg.flags, newAllow - oldAllow);
      var od := Listed(cfg.flags, newDeny - oldDeny);
      var reset := if Truthy(NewSide(allow)) || Truthy(NewSide(deny))
                   then Listed(cfg.flags, (oldAllow + oldDeny) - (newAllow + newDeny))
                   else [];
      var descriptions := PushDescriptions(pg, pd, og, od, reset);
      c := PermissionChanges(pg, pd, og, od, reset, descriptions);
    }

    /** `memberRoleChange`: the added and removed roles and their descriptions, added roles
        first. */
    method MemberRoleChange() returns (c: RoleChanges)
      requires RoleValues(data.changes)
      ensures c == RoleChangesOf(data.changes)
    {
      var adds := Roles(NewSide(FindChange(data.changes, AddKey)));
      var removes := Roles(NewSide(FindChange(data.changes, RemoveKey)));
      var descriptions: seq<string> := [];
      if |adds| > 0 {
        descriptions := descriptions + [RoleDescription("Added", adds)];
      }
      if |removes| > 0 {
        descriptions := descriptions + [RoleDescription("Removed", removes)];
      }
      c := RoleChanges(adds, removes, descriptions);
    }

    /** The detail items of `toString()`, pushed in the order reason, permission
        descriptions, the action's own items. */
    method CollectDetails(cfg: Config) returns (det: seq<string>)
      requires Ready(data)
      ensures det == Details(cfg, data)
    {
      var reasons := ReasonDetail();
      var p := PermissionsChange(cfg);
      det := reasons;
      if |p.descriptions| > 0 {
        det := det + p.descriptions;
      } else {
        AppendNothing(det, p.descriptions);
      }
      var items := ActionDetails();
      det := det + items;
      DetailsParts(cfg, data, reasons, p, items);
    }

    /** The reason item, pushed first when the reason is truthy. */
    method ReasonDetail() returns (items: seq<string>)
      ensures items == ReasonItems(data)
    {
      items := [];
      if data.reason.Some? && data.reason.value != "" {
        items := items + [ReasonLead + Quoted(data.reason.value)];
      }
    }

    /** The items the action itself pushes in `toString()`: the role descriptions of a member
        role update, the inactivity period of a prune. */
    method ActionDetails() returns (items: seq<string>)
      requires data.action == MemberRoleUpdate ==> RoleValues(data.changes)
      ensures items == ActionItems(data)
    {
      items := [];
      match data.action {
        case MemberRoleUpdate =>
          var r := MemberRoleChange();
          if |r.descriptions| > 0 {
            items := items + r.descriptions;
          } else {
            AppendNothing(items, r.descriptions);
          }
        case MemberPrune =>
          if data.extra.Some? && data.extra.value.days.Some? && data.extra.value.days.value != 0 {
            items := items + [PruneLead + IntToString(data.extra.value.days.value) + PruneTail];
          }
        case _ =>
      }
    }

    /** `desc` of `toString()`: the unsupported sentence, replaced by the executor and the
        action phrase for every action the switch knows. */
    method Describe(cfg: Config) returns (desc: string)
      ensures desc == Description(cfg, data)
    {
      var executor := ResolveName(cfg.names, IdRef(data.executorId));
      desc := Unsupported(cfg, data);
      if !data.action.OtherEvent? {
        desc := executor + ActionPhrase(cfg, data);
      }
    }

    /** The header line of `toString()`, with the time since the entry at `first`. */
    method HeaderLine(cfg: Config, first: int, url: string) returns (header: string)
      ensures header == Header(cfg, first, url, data)
    {
      var delta := TimeDeltaText(data.createdTimestamp - first);
      header := Join(HeaderFields(cfg, data, delta, url), FieldSeparator);
    }

    /** `toString()`: the entry as a quoted markdown callout. */
    method ToString(cfg: Config) returns (s: string)
      requires |manager.data| > 0 && Ready(data)
      ensures s == EntryText(cfg, manager.data[0].createdTimestamp,
                             manager.CreateLineURL(cfg, data.id), data)
    {
      var first := manager.data[0].createdTimestamp;
      var url := manager.CreateLineURL(cfg, data.id);
      var det := CollectDetails(cfg);
      var desc := Describe(cfg);
      var header := HeaderLine(cfg, first, url);
      var block := BuildBlock(header, desc, det);
      var quoted := QuoteLines(block);
      s := Join(quoted, "\n");
    }
  }

  /** The assembly of `arr` in `toString()`. */
  method BuildBlock(header: string, desc: string, det: seq<string>) returns (block: seq<string>)
    ensures block == BlockOf(header, desc, det)
  {
    block := [Note, header, "", desc];
    if |det| > 0 {
      var lines := NumberDetails(det);
      block := block + ([""] + lines);
    }
  }

  /** The pushes of `permissionsChange`: the Granted, Denied and Reset descriptions, each
      only when it has something to list. */
  method PushDescriptions(pg: seq<string>, pd: seq<string>, og: seq<string>, od: seq<string>,
                          reset: seq<string>)
    returns (descriptions: seq<string>)
    ensures descriptions == PermissionDescriptions(pg, pd, og, od, reset)
  {
    var granted, denied, resets := GrantedDescription(pg, og), DeniedDescription(pd, od),
                                   ResetDescription(reset);
    descriptions := [];
    if |pg| > 0 || |og| > 0 {
      descriptions := descriptions + [granted];
    }
    ghost var first := descriptions;
    if |pd| > 0 || |od| > 0 {
      descriptions := descriptions + [denied];
    }
    ghost var second := descriptions;
    if |reset| > 0 {
      descriptions := descriptions + [resets];
    }
    assert first == (if |pg| > 0 || |og| > 0 then [granted] else []);
    assert second == first + (if |pd| > 0 || |od| > 0 then [denied] else []);
    assert descriptions == second + (if |reset| > 0 then [resets] else []);
  }

  /** The numbering loop of `toString()`: each item split into lines, the first one
      prefixed with the item's number. */
  method NumberDetails(det: seq<string>) returns (lines: seq<string>)
    ensures lines == DetailLines(det)
  {
    lines := [];
    for i := 0 to |det|
      invariant lines == DetailLines(det[..i])
    {
      var ret := Split(det[i], '\n');
      ret := ret[0 := Number(i) + ret[0]];
      assert det[..i + 1][..i] == det[..i];
      lines := lines + ret;
    }
    assert det[..|det|] == det;
  }

  /** The quoting pass of `toString()`: every line prefixed with the quote marker. */
  method QuoteLines(block: seq<string>) returns (quoted: seq<string>)
    ensures quoted == Quote(block)
  {
    quoted := [];
    for i := 0 to |block|
      invariant quoted == Quote(block[..i])
    {
      quoted := quoted + [QuoteMark + block[i]];
    }
    assert block[..|block|] == block;
  }

  // ---------------------------------------------------------------------------------------
  // AuditLogsEntryManager
  // ---------------------------------------------------------------------------------------

  /** The fixed first line of the report. */
  const Title := "#" + " Open source audit log data incident 5/5/2024"

  /** The path from the repository address to a line of the raw data file. */
  const BlobPath := "/blob/main/audit_log.json#L"

  /** How the line between two consecutive entries opens. */
  const DeltaLead := "\U{0394}t = "

  /** The separator between the sections of the report: one blank line. */
  const Gap := "\n\n"

  /** The title opens with `#`, the time-difference lines with `Δ`. */
  lemma LeadsDiffer()
    ensures |Title| > 0 && |DeltaLead| > 0 && Title[0] != DeltaLead[0]
  {
    assert Title[0] == '#' && DeltaLead[0] == '\U{0394}';
  }

  /** Holds all entries and the lines of their serialised form. */
  class Manager {
    const data: seq<Entry>
    const dataLines: seq<string>

    /** The lines are those of the serialised reversed copy; `data` is kept as given. */
    constructor(data: seq<Entry>, serialize: seq<Entry> -> string)
      ensures this.data == data
      ensures dataLines == Split(serialize(Reversed(data)), '\n')
      ensures Join(dataLines, "\n") == serialize(Reversed(data))
    {
      this.data := data;
      var copy := Reversed(data);
      dataLines := Split(serialize(copy), '\n');
      JoinSplit(serialize(copy), '\n');
    }

    /** `findLineNumber(id)`: the 1-based number of the first line containing `id`, 0 when
        no line does. */
    function FindLineNumber(id: string): (k: nat)
      ensures k <= |dataLines|
      ensures k == 0 <==> forall i :: 0 <= i < |dataLines| ==> !Contains(dataLines[i], id)
      ensures k > 0 ==> Contains(dataLines[k - 1], id) &&
                        forall i :: 0 <= i < k - 1 ==> !Contains(dataLines[i], id)
    {
      FindIndex(dataLines, (l: string) => Contains(l, id)) + 1
    }

    /** `createLineURL(id)`: the link to the line of the raw data file that holds `id`; the
        line number reads back from the link's tail. */
    function CreateLineURL(cfg: Config, id: string): (u: string)
      ensures StartsWith(u, cfg.repositoryUrl + BlobPath)
      ensures var tail := u[|cfg.repositoryUrl + BlobPath|..];
              (forall i :: 0 <= i < |tail| ==> IsDigit(tail[i])) &&
              ParseNat(tail) == FindLineNumber(id)
      ensures var tail := u[|cfg.repositoryUrl + BlobPath|..];
              |tail| > 0 && (tail[0] == '0' ==> |tail| == 1)
    {
      var prefix := cfg.repositoryUrl + BlobPath;
      var number := NatToString(FindLineNumber(id));
      ParseNatToString(FindLineNumber(id));
      assert (prefix + number)[..|prefix|] == prefix;
      assert (prefix + number)[|prefix|..] == number;
      prefix + number
    }

    /** Every entry can be rendered. */
    predicate AllReady() {
      forall i :: 0 <= i < |data| ==> Ready(data[i])
    }

    /** The rendered entry `i`. */
    function EntrySection(cfg: Config, i: nat): string
      requires i < |data| && AllReady()
    {
      EntryText(cfg, data[0].createdTimestamp, CreateLineURL(cfg, data[i].id), data[i])
    }

    /** The line before entry `i > 0`: the time since the entry before it. */
    function DeltaLine(i: nat): string
      requires 0 < i < |data|
    {
      DeltaLead + TimeDeltaText(data[i].createdTimestamp - data[i - 1].createdTimestamp)
    }

    /** The rendered entries, in order. */
    function Entries(cfg: Config): (r: seq<string>)
      requires AllReady()
      ensures |r| == |data|
      ensures forall i :: 0 <= i < |data| ==> r[i] == EntrySection(cfg, i)
    {
      seq(|data|, i requires 0 <= i < |data| && AllReady() => EntrySection(cfg, i))
    }

    /** The time-difference lines, one per entry; the first entry has none. */
    function Deltas(): (r: seq<string>)
      ensures |r| == |data|
      ensures forall i :: 0 < i < |data| ==> r[i] == DeltaLine(i)
    {
      seq(|data|, i requires 0 <= i < |data| => if i > 0 then DeltaLine(i) else "")
    }

    /** `content` of `writeFileSync` once every entry has been appended. */
    function Content(cfg: Config): string
      requires AllReady()
    {
      Report(Title, Deltas(), Entries(cfg), |data|)
    }

    /** The report is the title followed by the sections of the entries, blank lines
        between them; it opens with the title. */
    lemma ContentLayout(cfg: Config)
      requires AllReady()
      ensures Content(cfg) == Join(ReportSections(Title, Deltas(), Entries(cfg), |data|), Gap)
      ensures StartsWith(Content(cfg), Title)
    {
      ReportJoin(Title, Deltas(), Entries(cfg), |data|);
      ReportStartsWithTitle(Title, Deltas(), Entries(cfg), |data|);
    }

    /** The sections that open with `Δt = ` are exactly those between two consecutive
        entries: one fewer than the entries. */
    lemma DeltaSections(cfg: Config)
      requires AllReady()
      ensures var sections := ReportSections(Title, Deltas(), Entries(cfg), |data|);
              forall j :: 0 <= j < |sections| ==>
                (StartsWith(sections[j], DeltaLead) <==> j > 0 && j % 2 == 0)
    {
      EntriesOpenWithQuote(cfg);
      DeltasOpenWithLead();
      LeadsDiffer();
      SectionKinds(Title, Deltas(), Entries(cfg), |data|, DeltaLead);
    }

    lemma EntriesOpenWithQuote(cfg: Config)
      requires AllReady()
      ensures forall i :: 0 <= i < |data| ==> |Entries(cfg)[i]| > 0 && Entries(cfg)[i][0] == '>'
    {
      forall i | 0 <= i < |data|
        ensures |Entries(cfg)[i]| > 0 && Entries(cfg)[i][0] == '>'
      {
        EntryStartsWithNote(cfg, data[0].createdTimestamp, CreateLineURL(cfg, data[i].id), data[i]);
      }
    }

    lemma DeltasOpenWithLead()
      ensures forall i :: 0 < i < |data| ==> StartsWith(Deltas()[i], DeltaLead)
    {
      forall i | 0 < i < |data|
        ensures StartsWith(Deltas()[i], DeltaLead)
      {
        PrefixOfConcat(DeltaLead, TimeDeltaText(data[i].createdTimestamp -
                                                 data[i - 1].createdTimestamp));
      }
    }

    /** The text the loop of `writeFileSync` appends for entry `i`. */
    method AppendedPiece(cfg: Config, i: nat) returns (piece: string)
      requires i < |data| && AllReady()
      ensures piece == Step(Deltas(), Entries(cfg), i)
    {
      var delta := DeltaBefore(i);
      var entry := new AuditLogsEntry(this, data[i]);
      var text := entry.ToString(cfg);
      assert text == EntrySection(cfg, i);
      piece := delta + Gap + text;
    }

    /** The time-difference part of what entry `i` appends: empty for the first entry. */
    method DeltaBefore(i: nat) returns (delta: string)
      requires i < |data|
      ensures delta == if i > 0 then Gap + DeltaLine(i) else ""
    {
      delta := "";
      if i > 0 {
        var t := TimeDeltaText(data[i].createdTimestamp - data[i - 1].createdTimestamp);
        delta := Gap + (DeltaLead + t);
      }
    }

    /** `content` of `writeFileSync`: the title, then what each entry appends, in order. */
    method WriteContent(cfg: Config) returns (content: string)
      requires AllReady()
      ensures content == Content(cfg)
    {
      ghost var deltas, entries := Deltas(), Entries(cfg);
      content := Title;
      for i := 0 to |data|
        invariant content == Report(Title, deltas, entries, i)
      {
        var piece := AppendedPiece(cfg, i);
        content := content + piece;
      }
    }
  }

  /** The report after the first `k` entries: the title, then for each entry a blank line and
      its time-difference line (from the second entry on), a blank line and the entry. */
  function Report(title: string, deltas: seq<string>, entries: seq<string>, k: nat): string
    requires k <= |entries| && |deltas| == |entries|
  {
    if k == 0 then title else Report(title, deltas, entries, k - 1) + Step(deltas, entries, k - 1)
  }

  /** What entry `i` appends to the report. */
  function Step(deltas: seq<string>, entries: seq<string>, i: nat): string
    requires i < |entries| && |deltas| == |entries|
  {
    (if i > 0 then Gap + deltas[i] else "") + Gap + entries[i]
  }

  /** The sections of the report after `k` entries, which blank lines separate: the title,
      then for each entry its time-difference line (from the second entry on) and the entry. */
  function ReportSections(title: string, deltas: seq<string>, entries: seq<string>, k: nat)
    : (r: seq<string>)
    requires k <= |entries| && |deltas| == |entries|
    ensures |r| == if k == 0 then 1 else 2 * k
    ensures r[0] == title
    ensures forall i :: 0 <= i < k ==> r[2 * i + 1] == entries[i]
    ensures forall i :: 0 < i < k ==> r[2 * i] == deltas[i]
    decreases k
  {
    if k == 0 then [title]
    else ReportSections(title, deltas, entries, k - 1) +
         (if k - 1 > 0 then [deltas[k - 1]] else []) + [entries[k - 1]]
  }

  /** The report is its sections joined by blank lines. */
  lemma {:induction false} ReportJoin(title: string, deltas: seq<string>, entries: seq<string>,
                                      k: nat)
    requires k <= |entries| && |deltas| == |entries|
    ensures Report(title, deltas, entries, k) == Join(ReportSections(title, deltas, entries, k), Gap)
    decreases k
  {
    if k > 0 {
      ReportJoin(title, deltas, entries, k - 1);
      var prev := ReportSections(title, deltas, entries, k - 1);
      var c := Report(title, deltas, entries, k - 1);
      var entry := entries[k - 1];
      if k - 1 > 0 {
        var delta := deltas[k - 1];
        var both := prev + [delta];
        assert ReportSections(title, deltas, entries, k) == both + [entry];
        assert (both + [entry])[..|both|] == both;
        assert both[..|prev|] == prev;
        assert Join(both, Gap) == c + Gap + delta;
      } else {
        assert ReportSections(title, deltas, entries, k) == prev + [entry];
        assert (prev + [entry])[..|prev|] == prev;
      }
    }
  }

  /** The report opens with its title, whatever the entries. */
  lemma ReportStartsWithTitle(title: string, deltas: seq<string>, entries: seq<string>, k: nat)
    requires k <= |entries| && |deltas| == |entries|
    ensures StartsWith(Report(title, deltas, entries, k), title)
  {
    ReportJoin(title, deltas, entries, k);
    JoinStartsWithFirst(ReportSections(title, deltas, entries, k), Gap);
  }

  /** When the title and the entries open with another character than `lead` and every
      time-difference line opens with `lead`, the sections opening with `lead` are exactly
      those at the even positions after the first: one fewer than the entries. */
  lemma SectionKinds(title: string, deltas: seq<string>, entries: seq<string>, k: nat,
                     lead: string)
    requires k <= |entries| && |deltas| == |entries|
    requires |lead| > 0 && |title| > 0 && title[0] != lead[0]
    requires forall i :: 0 < i < k ==> StartsWith(deltas[i], lead)
    requires forall i :: 0 <= i < k ==> |entries[i]| > 0 && entries[i][0] != lead[0]
    ensures var r := ReportSections(title, deltas, entries, k);
            forall j :: 0 <= j < |r| ==> (StartsWith(r[j], lead) <==> j > 0 && j % 2 == 0)
  {
    var r := ReportSections(title, deltas, entries, k);
    forall j | 0 <= j < |r|
      ensures StartsWith(r[j], lead) <==> j > 0 && j % 2 == 0
    {
      var i := j / 2;
      if j == 0 {
        assert r[j][0] != lead[0];
      } else if j % 2 == 1 {
        assert j == 2 * i + 1;
        assert r[j] == entries[i];
        assert r[j][0] != lead[0];
      } else {
        assert j == 2 * i;
        assert r[j] == deltas[i];
      }
    }
  }
}
