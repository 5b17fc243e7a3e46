/** What an entry's change records say: the lookup of a change by key, the permission
    differences of `permissionsChange` and the role lists of `memberRoleChange`, each with the
    description texts the report shows for it. */
module EntryChanges {
  import opened Wrappers
  import opened Sequences
  import opened Strings
  import opened Types
  import opened Functions

  /** The keys of the change records this module reads. */
  const PermissionsKey := "permissions"
  const AllowKey := "allow"
  const DenyKey := "deny"
  const AddKey := "$add"
  const RemoveKey := "$remove"

  // ---------------------------------------------------------------------------------------
  // findChange
  // ---------------------------------------------------------------------------------------

  /** `findChange(key)`: the first change record with this key, `null` when there is none. */
  function FindChange(changes: seq<Change>, key: string): (r: Option<Change>)
    ensures r.None? <==> forall i :: 0 <= i < |changes| ==> changes[i].key != key
    ensures r.Some? ==> exists i :: 0 <= i < |changes| && changes[i] == r.value &&
                          r.value.key == key &&
                          forall j :: 0 <= j < i ==> changes[j].key != key
  {
    var i := FindIndex(changes, (c: Change) => c.key == key);
    if i < 0 then None else Some(changes[i])
  }

  /** `change?.old` */
  function OldSide(c: Option<Change>): Option<Value> {
    if c.None? then None else c.value.oldValue
  }

  /** `change?.new` */
  function NewSide(c: Option<Change>): Option<Value> {
    if c.None? then None else c.value.newValue
  }

  /** JavaScript truthiness of an optional value: `undefined`, `null`, `false`, `0` and `""`
      are falsy; a bit-field, being a non-empty decimal string, and a list are truthy. */
  predicate Truthy(v: Option<Value>) {
    v.Some? &&
    match v.value
    case Null => false
    case Bool(b) => b
    case Num(n) => n != 0
    case Str(s) => s != ""
    case Bits(_) => true
    case RoleList(_) => true
  }

  /** How a template literal renders `change?.old` or `change?.new`. */
  function ValueText(v: Option<Value>): string {
    if v.None? then "undefined"
    else
      match v.value
      case Null => "null"
      case Bool(b) => if b then "true" else "false"
      case Num(n) => IntToString(n)
      case Str(s) => s
      case Bits(field) => NatToString(field)
      case RoleList(roles) => Join(seq(|roles|, _ => "[object Object]"), ",")
  }

  // ---------------------------------------------------------------------------------------
  // Permission bit-fields (discord.js `PermissionsBitField`)
  // ---------------------------------------------------------------------------------------

  /** The indices of the bits set in `n`. */
  function BitsOf(n: nat): set<nat> {
    if n == 0 then {}
    else (if n % 2 == 1 then {0} else {}) + set i | i in BitsOf(n / 2) :: i + 1
  }

  /** A value `new PermissionsBitField(v ?? 0n)` accepts: absent, `null` or a bit-field. */
  predicate IsBitField(v: Option<Value>) {
    v.None? || v.value.Null? || v.value.Bits?
  }

  /** The bits of `new PermissionsBitField(v ?? 0n)`: none for an absent or `null` value. */
  function Field(v: Option<Value>): set<nat>
    requires IsBitField(v)
  {
    if v.Some? && v.value.Bits? then BitsOf(v.value.field) else {}
  }

  /** `toArray()`: the names of the table's flags whose bit is in `bits`, in table order. */
  function Listed(flags: seq<Flag>, bits: set<nat>): (r: seq<string>)
    ensures |r| <= |flags|
  {
    if |flags| == 0 then []
    else (if flags[0].bit in bits then [flags[0].name] else []) + Listed(flags[1..], bits)
  }

  /** A name is listed exactly when some flag of the table with that name has its bit set. */
  lemma {:induction false} ListedMembers(flags: seq<Flag>, bits: set<nat>)
    ensures forall n :: n in Listed(flags, bits) <==>
              exists f :: f in flags && f.name == n && f.bit in bits
  {
    if |flags| > 0 {
      ListedMembers(flags[1..], bits);
      assert flags == [flags[0]] + flags[1..];
    }
  }

  /** Nothing is listed for an empty bit set. */
  lemma {:induction false} ListedNone(flags: seq<Flag>)
    ensures Listed(flags, {}) == []
  {
    if |flags| > 0 {
      ListedNone(flags[1..]);
    }
  }

  /** The values of the `permissions`, `allow` and `deny` records are ones the bit-field
      constructor accepts (it throws on anything else). */
  predicate PermissionValues(changes: seq<Change>) {
    var perms, allow, deny :=
      FindChange(changes, PermissionsKey), FindChange(changes, AllowKey), FindChange(changes, DenyKey);
    IsBitField(OldSide(perms)) && IsBitField(NewSide(perms)) &&
    IsBitField(OldSide(allow)) && IsBitField(NewSide(allow)) &&
    IsBitField(OldSide(deny)) && IsBitField(NewSide(deny))
  }

  /** The result of `permissionsChange`. */
  datatype PermissionChanges = PermissionChanges(
    permsGrant: seq<string>,
    permsDeny: seq<string>,
    overwriteGrant: seq<string>,
    overwriteDeny: seq<string>,
    overwriteReset: seq<string>,
    descriptions: seq<string>)

  /** The fence around a markdown code block. */
  const Fence := "```"

  /** discord.js `codeBlock(content)`: the content between two fence lines. */
  function CodeBlock(content: string): string {
    Fence + "\n" + content + "\n" + Fence
  }

  function Plural(n: nat): string {
    if n > 1 then "s" else ""
  }

  /** `a || b` on two strings. */
  function Or(a: string, b: string): string {
    if a != "" then a else b
  }

  /** The code block content of a Granted or Denied description: `a || b` on the two
      renderings. */
  function Listing(a: seq<string>, b: seq<string>): string {
    Or(FlagLines(a), FlagLines(b))
  }

  /** The flag names, spaced, one per line. */
  function FlagLines(names: seq<string>): string {
    Join(SpacePascalCaseAll(names), "\n")
  }

  /** One description: a bold heading, "permission" with a plural "s", then a code block. */
  function PermissionDescription(verb: string, count: nat, content: string): (r: string)
    ensures StartsWith(r, "**" + verb + "**")
  {
    var h := "**" + verb + "**";
    assert h + " permission" + Plural(count) + "\n" + CodeBlock(content) ==
           h + (" permission" + Plural(count) + "\n" + CodeBlock(content));
    h + " permission" + Plural(count) + "\n" + CodeBlock(content)
  }

  /** Three texts pushed in turn, each only when its condition holds. */
  function PushedInTurn(keepG: bool, g: string, keepN: bool, n: string, keepR: bool, r: string)
    : seq<string>
  {
    (if keepG then [g] else []) + (if keepN then [n] else []) + (if keepR then [r] else [])
  }

  /** The Granted description: "permission" counts both lists, the code block lists the
      granted permissions, or the granted overwrites when the former render as nothing. */
  function GrantedDescription(pg: seq<string>, og: seq<string>): (r: string)
    ensures StartsWith(r, "**Granted**")
  {
    PermissionDescription("Granted", |pg + og|, Listing(pg, og))
  }

  /** The Denied description, built like the Granted one from the denied lists. */
  function DeniedDescription(pd: seq<string>, od: seq<string>): (r: string)
    ensures StartsWith(r, "**Denied**")
  {
    PermissionDescription("Denied", |pd + od|, Listing(pd, od))
  }

  /** The Reset description of the reset overwrites. */
  function ResetDescription(reset: seq<string>): (r: string)
    ensures StartsWith(r, "**Reset**")
  {
    PermissionDescription("Reset", |reset|, FlagLines(reset))
  }

  /** The descriptions pushed by `permissionsChange`, in the order Granted, Denied, Reset. */
  function PermissionDescriptions(pg: seq<string>, pd: seq<string>, og: seq<string>,
                                  od: seq<string>, reset: seq<string>): seq<string>
  {
    PushedInTurn(|pg| > 0 || |og| > 0, GrantedDescription(pg, og),
                 |pd| > 0 || |od| > 0, DeniedDescription(pd, od),
                 |reset| > 0, ResetDescription(reset))
  }

  /** What `permissionsChange` computes from an entry's change records. */
  function PermissionsChangeOf(flags: seq<Flag>, changes: seq<Change>): PermissionChanges
    requires PermissionValues(changes)
  {
    var perms, allow, deny :=
      FindChange(changes, PermissionsKey), FindChange(changes, AllowKey), FindChange(changes, DenyKey);
    var oldPerms, newPerms := Field(OldSide(perms)), Field(NewSide(perms));
    var oldAllow, newAllow := Field(OldSide(allow)), Field(NewSide(allow));
    var oldDeny, newDeny := Field(OldSide(deny)), Field(NewSide(deny));
    var pg := Listed(flags, newPerms - oldPerms);
    var pd := if Truthy(NewSide(perms)) then Listed(flags, oldPerms - newPerms) else [];
    var og := Listed(flags, newAllow - oldAllow);
    var od := Listed(flags, newDeny - oldDeny);
    var reset := if Truthy(NewSide(allow)) || Truthy(NewSide(deny))
                 then Listed(flags, (oldAllow + oldDeny) - (newAllow + newDeny))
                 else [];
    PermissionChanges(pg, pd, og, od, reset, PermissionDescriptions(pg, pd, og, od, reset))
  }

  /** The granted permissions and overwrites are exactly the flags whose bit the new value
      sets and the old one does not; an absent record or side counts as no bits. */
  lemma PermissionsGranted(flags: seq<Flag>, changes: seq<Change>)
    requires PermissionValues(changes)
    ensures var c := PermissionsChangeOf(flags, changes);
            var perms, allow :=FindChange(changes, PermissionsKey), FindChange(changes, AllowKey);
            (forall n :: n in c.permsGrant <==>
               exists f :: f in flags && f.name == n &&
                 f.bit in Field(NewSide(perms)) && f.bit !in Field(OldSide(perms))) &&
            (forall n :: n in c.overwriteGrant <==>
               exists f :: f in flags && f.name == n &&
                 f.bit in Field(NewSide(allow)) && f.bit !in Field(OldSide(allow)))
  {
    var perms, allow := FindChange(changes, PermissionsKey), FindChange(changes, AllowKey);
    ListedMembers(flags, Field(NewSide(perms)) - Field(OldSide(perms)));
    ListedMembers(flags, Field(NewSide(allow)) - Field(OldSide(allow)));
  }

  /** The denied permissions are listed only when the permissions record has a truthy new
      value, and then they are exactly the flags the old value sets and the new one does not;
      the denied overwrites are the flags the new deny value adds. */
  lemma PermissionsDenied(flags: seq<Flag>, changes: seq<Change>)
    requires PermissionValues(changes)
    ensures var c := PermissionsChangeOf(flags, changes);
            var perms, deny := FindChange(changes, PermissionsKey), FindChange(changes, DenyKey);
            (!Truthy(NewSide(perms)) ==> c.permsDeny == []) &&
            (Truthy(NewSide(perms)) ==>
               forall n :: n in c.permsDeny <==>
                 exists f :: f in flags && f.name == n &&
                   f.bit in Field(OldSide(perms)) && f.bit !in Field(NewSide(perms))) &&
            (forall n :: n in c.overwriteDeny <==>
               exists f :: f in flags && f.name == n &&
                 f.bit in Field(NewSide(deny)) && f.bit !in Field(OldSide(deny)))
  {
    var perms, deny := FindChange(changes, PermissionsKey), FindChange(changes, DenyKey);
    ListedMembers(flags, Field(OldSide(perms)) - Field(NewSide(perms)));
    ListedMembers(flags, Field(NewSide(deny)) - Field(OldSide(deny)));
  }

  /** The reset overwrites are listed only when the allow or the deny record has a truthy new
      value, and then they are the flags set in the old allow or deny value and in neither new
      one. */
  lemma PermissionsReset(flags: seq<Flag>, changes: seq<Change>)
    requires PermissionValues(changes)
    ensures var c := PermissionsChangeOf(flags, changes);
            var allow, deny := FindChange(changes, AllowKey), FindChange(changes, DenyKey);
            var any := Truthy(NewSide(allow)) || Truthy(NewSide(deny));
            (!any ==> c.overwriteReset == []) &&
            (any ==>
               forall n :: n in c.overwriteReset <==>
                 exists f :: f in flags && f.name == n &&
                   (f.bit in Field(OldSide(allow)) || f.bit in Field(OldSide(deny))) &&
                   f.bit !in Field(NewSide(allow)) && f.bit !in Field(NewSide(deny)))
  {
    var allow, deny := FindChange(changes, AllowKey), FindChange(changes, DenyKey);
    ListedMembers(flags, (Field(OldSide(allow)) + Field(OldSide(deny))) -
                         (Field(NewSide(allow)) + Field(NewSide(deny))));
  }

  /** Without any of the three records nothing is listed and nothing is described. */
  lemma PermissionsAbsent(flags: seq<Flag>, changes: seq<Change>)
    requires FindChange(changes, PermissionsKey).None?
    requires FindChange(changes, AllowKey).None? && FindChange(changes, DenyKey).None?
    ensures PermissionsChangeOf(flags, changes) == PermissionChanges([], [], [], [], [], [])
  {
    var none: Option<Value> := None;
    assert Field(none) - Field(none) == {};
    assert (Field(none) + Field(none)) - (Field(none) + Field(none)) == {};
    ListedNone(flags);
  }

  // ---------------------------------------------------------------------------------------
  // Description texts
  // ---------------------------------------------------------------------------------------

  /** Spaced flag names are a non-empty text as soon as the last name is non-empty. */
  lemma FlagLinesNonEmpty(names: seq<string>)
    requires |names| > 0 && names[|names| - 1] != ""
    ensures FlagLines(names) != ""
  {
    var spaced := SpacePascalCaseAll(names);
    JoinEndsWithLast(spaced, "\n");
    assert spaced[|spaced| - 1] == SpacePascalCase(names[|names| - 1]);
  }

  /** The code block of a Granted or Denied description lists the first list's names
      whenever it has any (flag names are never empty), the second list's otherwise. */
  lemma ListingChoice(a: seq<string>, b: seq<string>)
    requires forall i :: 0 <= i < |a| ==> a[i] != ""
    ensures Listing(a, b) == FlagLines(if |a| > 0 then a else b)
  {
    if |a| > 0 {
      FlagLinesNonEmpty(a);
    } else {
      assert a == [];
    }
  }

  /** "permission" takes a plural "s" exactly when the description counts more than one
      name. */
  lemma PermissionDescriptionPlural(verb: string, count: nat, content: string)
    ensures var text := PermissionDescription(verb, count, content);
            StartsWith(text, "**" + verb + "** permissions") <==> count > 1
  {
    var h := "**" + verb + "** permission";
    var rest := "\n" + CodeBlock(content);
    var text := PermissionDescription(verb, count, content);
    assert text == h + Plural(count) + rest;
    assert "**" + verb + "** permissions" == h + "s";
    if count > 1 {
      assert text == (h + "s") + rest;
    } else {
      assert text == h + rest;
      assert text[|h|] == '\n';
    }
  }

  /** Texts opening with different bold verbs are told apart by the verb's first letter. */
  lemma VerbsDiffer(s: string, v: string, w: string)
    requires |v| > 0 && |w| > 0 && v[0] != w[0]
    requires StartsWith(s, "**" + v + "**")
    ensures !StartsWith(s, "**" + w + "**")
  {
    assert s[2] == ("**" + v + "**")[2] == v[0];
    assert ("**" + w + "**")[2] == w[0];
  }

  /** The permission descriptions `d` are in order: Granted first exactly when something is
      granted, Reset last exactly when something is reset, a Denied one exactly when
      something is denied, and one description per kind that is present. */
  predicate PermissionsInOrder(d: seq<string>, granted: bool, denied: bool, reset: bool) {
    |d| == (if granted then 1 else 0) + (if denied then 1 else 0) + (if reset then 1 else 0) &&
    (granted <==> |d| > 0 && StartsWith(d[0], "**Granted**")) &&
    (reset <==> |d| > 0 && StartsWith(d[|d| - 1], "**Reset**")) &&
    (denied <==> exists i :: 0 <= i < |d| && StartsWith(d[i], "**Denied**"))
  }

  /** `permissionsChange` describes its lists in the order Granted, Denied, Reset, each at
      most once and only when there is something to describe. */
  lemma PermissionDescriptionsOrder(pg: seq<string>, pd: seq<string>, og: seq<string>,
                                    od: seq<string>, reset: seq<string>)
    ensures PermissionsInOrder(PermissionDescriptions(pg, pd, og, od, reset),
                               |pg| > 0 || |og| > 0, |pd| > 0 || |od| > 0, |reset| > 0)
  {
    ThreeInOrder(GrantedDescription(pg, og), DeniedDescription(pd, od), ResetDescription(reset),
                 |pg| > 0 || |og| > 0, |pd| > 0 || |od| > 0, |reset| > 0);
  }

  /** Every text of `items` opens with the bold marker's `*`. */
  predicate AllBold(items: seq<string>) {
    forall i :: 0 <= i < |items| ==> |items[i]| > 0 && items[i][0] == '*'
  }

  /** Every permission description opens in bold. */
  lemma PermissionDescriptionsBold(pg: seq<string>, pd: seq<string>, og: seq<string>,
                                   od: seq<string>, reset: seq<string>)
    ensures AllBold(PermissionDescriptions(pg, pd, og, od, reset))
  {
    var g, n, r := GrantedDescription(pg, og), DeniedDescription(pd, od), ResetDescription(reset);
    OpensBold(g, "Granted");
    OpensBold(n, "Denied");
    OpensBold(r, "Reset");
    PushedInTurnBold(|pg| > 0 || |og| > 0, g, |pd| > 0 || |od| > 0, n, |reset| > 0, r);
  }

  /** A text opening with a bold verb opens with `*`. */
  lemma OpensBold(s: string, verb: string)
    requires StartsWith(s, "**" + verb + "**")
    ensures |s| > 0 && s[0] == '*'
  {
    assert s[0] == ("**" + verb + "**")[0];
  }

  /** Keeping any of three texts that open with `*` gives texts that all open with `*`. */
  lemma PushedInTurnBold(keepG: bool, g: string, keepN: bool, n: string, keepR: bool, r: string)
    requires |g| > 0 && g[0] == '*' && |n| > 0 && n[0] == '*' && |r| > 0 && r[0] == '*'
    ensures AllBold(PushedInTurn(keepG, g, keepN, n, keepR, r))
  {
    var d := PushedInTurn(keepG, g, keepN, n, keepR, r);
    assert forall i :: 0 <= i < |d| ==> d[i] in {g, n, r};
  }

  /** Up to three texts with the verbs Granted, Denied and Reset, each kept on its own
      condition, in that order. */
  lemma ThreeInOrder(g: string, n: string, r: string, keepG: bool, keepN: bool, keepR: bool)
    requires StartsWith(g, "**Granted**") && StartsWith(n, "**Denied**")
    requires StartsWith(r, "**Reset**")
    ensures PermissionsInOrder(PushedInTurn(keepG, g, keepN, n, keepR, r), keepG, keepN, keepR)
  {
    VerbsDiffer(g, "Granted", "Reset");
    VerbsDiffer(g, "Granted", "Denied");
    VerbsDiffer(n, "Denied", "Granted");
    VerbsDiffer(n, "Denied", "Reset");
    VerbsDiffer(r, "Reset", "Granted");
    VerbsDiffer(r, "Reset", "Denied");
    var d := PushedInTurn(keepG, g, keepN, n, keepR, r);
    assert forall i :: 0 <= i < |d| ==> d[i] in {g, n, r};
    if keepN {
      assert d[if keepG then 1 else 0] == n;
    }
  }

  // ---------------------------------------------------------------------------------------
  // memberRoleChange
  // ---------------------------------------------------------------------------------------

  /** A value `change?.new ?? []` can be read as a role list from: absent, `null` or a list. */
  predicate IsRoleList(v: Option<Value>) {
    v.None? || v.value.Null? || v.value.RoleList?
  }

  /** `change?.new ?? []` read as a role list. */
  function Roles(v: Option<Value>): seq<Role>
    requires IsRoleList(v)
  {
    if v.Some? && v.value.RoleList? then v.value.roles else []
  }

  /** The `$add` and `$remove` records carry role lists. */
  predicate RoleValues(changes: seq<Change>) {
    IsRoleList(NewSide(FindChange(changes, AddKey))) &&
    IsRoleList(NewSide(FindChange(changes, RemoveKey)))
  }

  /** How one role is listed: `name (id)`. */
  function RoleLine(r: Role): string {
    r.name + " (" + r.id + ")"
  }

  function RoleLines(roles: seq<Role>): (r: seq<string>)
    ensures |r| == |roles|
    ensures forall i :: 0 <= i < |roles| ==> r[i] == RoleLine(roles[i])
  {
    seq(|roles|, i requires 0 <= i < |roles| => RoleLine(roles[i]))
  }

  /** The heading of a role description: "a role" for one role, "some roles" for more. */
  function RoleHeading(verb: string, count: nat): string {
    "**" + verb + "** " + (if count > 1 then "some" else "a") + " role" + Plural(count)
  }

  function RoleDescription(verb: string, roles: seq<Role>): string {
    RoleHeading(verb, |roles|) + "\n" + CodeBlock(Join(RoleLines(roles), "\n"))
  }

  /** The result of `memberRoleChange`. */
  datatype RoleChanges = RoleChanges(adds: seq<Role>, removes: seq<Role>, descriptions: seq<string>)

  /** The descriptions `memberRoleChange` pushes: one for the added roles, then one for the
      removed roles, each only when its list is non-empty. */
  function RoleDescriptions(adds: seq<Role>, removes: seq<Role>): seq<string> {
    (if |adds| > 0 then [RoleDescription("Added", adds)] else []) +
    (if |removes| > 0 then [RoleDescription("Removed", removes)] else [])
  }

  /** What `memberRoleChange` computes from an entry's change records. */
  function RoleChangesOf(changes: seq<Change>): RoleChanges
    requires RoleValues(changes)
  {
    var adds := Roles(NewSide(FindChange(changes, AddKey)));
    var removes := Roles(NewSide(FindChange(changes, RemoveKey)));
    RoleChanges(adds, removes, RoleDescriptions(adds, removes))
  }

  /** One role gives "a role", several give "some roles". */
  lemma RoleHeadingWording(verb: string, count: nat)
    ensures count == 1 ==> RoleHeading(verb, count) == "**" + verb + "** a role"
    ensures count > 1 ==> RoleHeading(verb, count) == "**" + verb + "** some roles"
  {
  }

  /** A role description starts with its bold verb. */
  lemma RoleDescriptionVerb(verb: string, roles: seq<Role>)
    ensures StartsWith(RoleDescription(verb, roles), "**" + verb + "**")
  {
    var h := "**" + verb + "**";
    var heading := RoleHeading(verb, |roles|);
    assert heading == h + (" " + (if |roles| > 1 then "some" else "a") + " role" +
                           Plural(|roles|));
    StartsWithExtend(heading, h, "\n");
    StartsWithExtend(heading + "\n", h, CodeBlock(Join(RoleLines(roles), "\n")));
  }

  /** Every role description opens in bold. */
  lemma RoleDescriptionsBold(adds: seq<Role>, removes: seq<Role>)
    ensures AllBold(RoleDescriptions(adds, removes))
  {
    var a, r := RoleDescription("Added", adds), RoleDescription("Removed", removes);
    RoleDescriptionVerb("Added", adds);
    RoleDescriptionVerb("Removed", removes);
    assert a[..|"**Added**"|][0] == '*' && r[..|"**Removed**"|][0] == '*';
  }

  /** There is a description per non-empty list, the added roles' first, the removed roles'
      last. */
  lemma RoleDescriptionsOrder(adds: seq<Role>, removes: seq<Role>)
    ensures var d := RoleDescriptions(adds, removes);
            |d| == (if |adds| > 0 then 1 else 0) + (if |removes| > 0 then 1 else 0) &&
            (|adds| > 0 <==> |d| > 0 && StartsWith(d[0], "**Added**")) &&
            (|removes| > 0 <==> |d| > 0 && StartsWith(d[|d| - 1], "**Removed**"))
  {
    RoleDescriptionVerb("Added", adds);
    RoleDescriptionVerb("Removed", removes);
    TwoInOrder(RoleDescription("Added", adds), RoleDescription("Removed", removes),
               |adds| > 0, |removes| > 0);
  }

  /** Up to two texts with the verbs Added and Removed, each kept on its own condition, in
      that order. */
  lemma TwoInOrder(a: string, r: string, keepA: bool, keepR: bool)
    requires StartsWith(a, "**Added**") && StartsWith(r, "**Removed**")
    ensures var d := (if keepA then [a] else []) + (if keepR then [r] else []);
            |d| == (if keepA then 1 else 0) + (if keepR then 1 else 0) &&
            (keepA <==> |d| > 0 && StartsWith(d[0], "**Added**")) &&
            (keepR <==> |d| > 0 && StartsWith(d[|d| - 1], "**Removed**"))
  {
    VerbsDiffer(a, "Added", "Removed");
    VerbsDiffer(r, "Removed", "Added");
  }

  /** A heading followed by a code block of lines reads back, line by line, as the heading,
      the opening fence, the lines and the closing fence. */
  lemma CodeBlockLines(heading: string, lines: seq<string>)
    requires '\n' !in heading && |lines| > 0
    requires forall i :: 0 <= i < |lines| ==> '\n' !in lines[i]
    ensures Split(heading + "\n" + CodeBlock(Join(lines, "\n")), '\n') ==
            [heading, Fence] + lines + [Fence]
  {
    var all := [heading, Fence] + lines + [Fence];
    assert Join(all, "\n") == heading + "\n" + CodeBlock(Join(lines, "\n")) by {
      CodeBlockJoin(heading, lines);
    }
    assert forall i :: 0 <= i < |all| ==> '\n' !in all[i] by {
      assert '\n' !in Fence;
    }
    SplitJoin(all, '\n');
  }

  lemma CodeBlockJoin(heading: string, lines: seq<string>)
    requires |lines| > 0
    ensures Join([heading, Fence] + lines + [Fence], "\n") ==
            heading + "\n" + CodeBlock(Join(lines, "\n"))
  {
    var nl, j := "\n", Join(lines, "\n");
    var head := [heading, Fence];
    assert Join(head, nl) == heading + nl + Fence by {
      assert head[..1] == [heading];
    }
    assert Join(head + lines, nl) == heading + nl + Fence + nl + j by {
      JoinConcat(head, lines, nl);
    }
    assert Join(head + lines + [Fence], nl) == Join(head + lines, nl) + nl + Fence by {
      JoinConcat(head + lines, [Fence], nl);
    }
    Regroup(heading, nl, Fence, j);
  }

  lemma Regroup(h: string, nl: string, f: string, j: string)
    ensures h + nl + f + nl + j + nl + f == h + nl + (f + nl + j + nl + f)
  {
  }

  /** Each role of a description is listed as `name (id)` on its own line, in input order,
      inside the code block. */
  lemma RoleDescriptionLines(verb: string, roles: seq<Role>)
    requires |roles| > 0 && '\n' !in verb
    requires forall i :: 0 <= i < |roles| ==> '\n' !in roles[i].name && '\n' !in roles[i].id
    ensures Split(RoleDescription(verb, roles), '\n') ==
            [RoleHeading(verb, |roles|), Fence] + RoleLines(roles) + [Fence]
  {
    var lines := RoleLines(roles);
    forall i | 0 <= i < |lines|
      ensures '\n' !in lines[i]
    {
      assert lines[i] == roles[i].name + " (" + roles[i].id + ")";
    }
    CodeBlockLines(RoleHeading(verb, |roles|), lines);
  }
}
