# Audit-log report generator, modelled in Dafny

This project models the formatting core of a TypeScript tool that turns a server's audit
log into one markdown document. The core has three parts:

- **Text utilities** (`interpreter/functions.ts`):
  - `spacePascalCase` puts a space between pascal-case words.
  - `timeDelta` renders a signed number of milliseconds as text such as
    `1m and 30s` or `5s ago`.
  - `resolveName` renders an id with its display name from a static name table.
- **The entry formatter** (`AuditLogsEntry` in `interpreter/AuditLogsEntry.ts`):
  - `findChange` looks up a change record by key.
  - `permissionsChange` computes the granted, denied and reset permissions of a
    permission update as bit-set differences, with a description for each kind.
  - `memberRoleChange` lists the roles added to and removed from a member.
  - `toString` renders one entry as a quoted markdown callout: a header line, a
    description sentence chosen by the action, and numbered detail items.
- **The report manager** (`AuditLogsEntryManager` in
  `interpreter/AuditLogsEntryManager.ts`):
  - It keeps the entries and the lines of their serialised form.
  - `findLineNumber` finds the line that holds an entry id, and `createLineURL` links
    to that line.
  - `writeFileSync` assembles the report: a title, then the entries in order, with a
    `Δt = …` line between consecutive entries.

The project has seven modules:

| file | module | contents |
|---|---|---|
| `wrappers.dfy` | `Wrappers` | `Option`, for JavaScript's missing values |
| `sequences.dfy` | `Sequences` | `findIndex` and a reversed copy |
| `strings.dfy` | `Strings` | `join`, `split`, prefix and substring tests, decimal rendering of numbers |
| `types.dfy` | `Types` | the entry record, change values, the action tag, and `Config`, which holds the static inputs |
| `functions.dfy` | `Functions` | the three text utilities |
| `entry_changes.dfy` | `EntryChanges` | `findChange`, `permissionsChange`, `memberRoleChange` and their description texts |
| `audit_logs.dfy` | `AuditLogs` | the `AuditLogsEntry` and `Manager` classes and the rendering functions behind `toString` and `writeFileSync` |

Where the source builds a value step by step, the model is a method: the loop of
`timeDelta`, the pushes into `descriptions`, `det` and `arr`, and the `content +=` loop of
`writeFileSync`. Each such method is proved equal to a specification function. The
properties the source promises are then proved as lemmas about those functions.

`Config` carries the static inputs the source imports or computes outside the core:

- the name table (`nameMap.json`);
- discord.js's permission flag table;
- the repository address (`package.json`);
- the UTC date rendering (`parseUTCDate`);
- the locale's number rendering (`toLocaleString`).

Some details of the code that the model keeps:

- **Name table** (interpreter/functions.ts:73). `resolveName` uses the name only when it
  is truthy. An empty name falls back to the id-only form, even though the id is a key of
  the table.
- **Denied permissions** (interpreter/AuditLogsEntry.ts:139 and 142). `permsDeny` needs a
  truthy `new` side of the `permissions` record, not merely an existing one. The same goes
  for `allow` and `deny` in `overwriteReset`.
- **Reason item** (interpreter/AuditLogsEntry.ts:209). The reason item needs a truthy
  (non-empty) reason.
- **Prune days** (interpreter/AuditLogsEntry.ts:250). A member prune with truthy
  `extra.days` adds a detail item of its own, after the permission descriptions. So member
  role updates are not the only action that adds items there.
- **Callout marker** (interpreter/AuditLogsEntry.ts:290). The `[!NOTE]` marker is a line
  of its own. The header fields are on the next line.

## Model

| member | source | states |
|---|---|---|
| Functions.SpacePascalCaseAll | interpreter/functions.ts:14-16 | The array overload returns as many strings as it gets. Element `i` is the single-string result on element `i`. |
| Functions.SpacePascalCaseLength | interpreter/functions.ts:12 | The result is as long as the input plus one per match of a lowercase letter followed by an uppercase letter or digit. |
| Functions.SpacePascalCaseAt | interpreter/functions.ts:12 | Input character `i` lands at `i` plus the number of earlier matches. A space follows it exactly when it is a match. |
| Functions.SpacePascalCasePlacement | interpreter/functions.ts:12 | Exactly one space is inserted after every match. Every input character is kept, in order, and the length shows nothing else is added. |
| Functions.SpacedHasNoBreaks | interpreter/functions.ts:12 | After spacing, no lowercase letter directly precedes an uppercase letter or digit. |
| Functions.SpacePascalCaseFixed | interpreter/functions.ts:12 | Text without a match is returned unchanged. |
| Functions.SpacePascalCaseIdempotent | interpreter/functions.ts:12 | Spacing twice gives the same text as spacing once. |
| Functions.SpacePascalCaseConcat | interpreter/functions.ts:12 | Spacing a concatenation spaces each part. One space goes at the junction exactly when the pattern matches across it. |
| Functions.CapitalizedWord | interpreter/functions.ts:12 | A word whose letters after the first are all lowercase is left unchanged. |
| Functions.ComponentsTable | interpreter/functions.ts:30-46 | Component `i` counts unit `i` of the table, in table order. |
| Functions.ComponentFromTable | interpreter/functions.ts:42-46 | The years are the duration floor-divided by the first unit. Each later component is the remainder by the previous unit, floor-divided by its own unit. |
| Functions.ComponentBounds | interpreter/functions.ts:42-46 | Counts are bounded: months ≤ 11, days ≤ 30, hours ≤ 23, minutes ≤ 59, seconds ≤ 59, milliseconds ≤ 999. |
| Functions.NonZeroMembers | interpreter/functions.ts:48 | A component survives the filter exactly when its count is non-zero. |
| Functions.NonZeroAscending | interpreter/functions.ts:48 | Filtering keeps the survivors in unit order. |
| Functions.DropLeadingZerosTexts | interpreter/functions.ts:48 | Dropping texts that start with "0" drops exactly the zero components. |
| Functions.PhraseByFilter | interpreter/functions.ts:49-51 | Popping the last item, joining the rest with ", " and dropping empty strings before joining with " and " gives the phrase. With one item there is no " and ". With more, the last one is attached with " and ". |
| Functions.FilteredPhrase | interpreter/functions.ts:48-51 | Filter, pop and join together give the phrase of the non-zero components. |
| Functions.TimeDelta | interpreter/functions.ts:24-52 | The loop over the unit table, the filter, the pop and the joins compute `TimeDeltaText` of the input. |
| Functions.SomeComponentNonZero | interpreter/functions.ts:42-48 | A non-zero duration keeps at least one component. |
| Functions.SurvivorsOrdered | interpreter/functions.ts:42-48 | The surviving components are non-zero, at most seven, in y, mo, d, h, m, s, ms order. |
| Functions.DurationShape | interpreter/functions.ts:42-51 | A non-zero duration's text starts with a digit other than "0" and does not end in "go". |
| Functions.TimeDeltaZero | interpreter/functions.ts:25-51 | The result is "0ms" exactly for zero, and never empty. |
| Functions.TimeDeltaAgo | interpreter/functions.ts:29-51 | The result ends in " ago" exactly when the input is negative. |
| Functions.TimeDeltaNegate | interpreter/functions.ts:29-51 | For positive `t`, `timeDelta(-t)` is `timeDelta(t)` followed by " ago". |
| Functions.MinutesAndSeconds | interpreter/functions.ts:42-51 | Below an hour, with minutes and seconds both non-zero, the text reads "<m>m and <s>s". |
| Functions.BelowASecond | interpreter/functions.ts:42-51 | A duration below a second reads "<n>ms". |
| Functions.TimeDeltaNinetySeconds | interpreter/functions.ts:24-52 | 90000 ms reads "1m and 30s". |
| Functions.TimeDeltaFiveSecondsAgo | interpreter/functions.ts:24-52 | -5000 ms reads "5s ago". |
| Functions.ResolveName | interpreter/functions.ts:70-76 | The result starts with a backtick. When the table gives a non-empty name for `id ?? ''`, the result starts with the quoted name and " (", ends with " (" and the quoted id and ")", and is exactly seven characters longer than name and id together. So it is exactly the quoted name followed by the quoted id in parentheses. |
| Functions.ResolveNameFallback | interpreter/functions.ts:73-75 | The quoted-id form comes out exactly when the table has no non-empty name for the id. `null` is rendered literally. |
| Sequences.FindIndex | interpreter/AuditLogsEntryManager.ts:25 | The result is -1 exactly when no element satisfies the predicate. Otherwise it is the first index that does. |
| Sequences.ReversedTwice | interpreter/AuditLogsEntryManager.ts:11 | Reversing a copy twice gives the original order back. So the order `dataLines` is built in, `data` reversed, turns back into the entry order without losing or moving an entry. |
| Strings.JoinSplit | interpreter/AuditLogsEntryManager.ts:11 | Splitting on a character and joining with it again gives back the text. |
| Strings.SplitJoin | interpreter/AuditLogsEntry.ts:314-316 | Lines free of the separator, joined and split again, come back unchanged. |
| Strings.ParseNatToString | interpreter/AuditLogsEntryManager.ts:29 | The decimal rendering of a number reads back as that number. |
| EntryChanges.FindChange | interpreter/AuditLogsEntry.ts:201-203 | The result is absent exactly when no record has the key. Otherwise it is the first record with the key. |
| EntryChanges.ListedMembers | interpreter/AuditLogsEntry.ts:138-144 | A flag name is listed exactly when a flag of the table with that name has its bit in the set. |
| EntryChanges.ListedNone | interpreter/AuditLogsEntry.ts:138-144 | Nothing is listed for an empty bit set. |
| EntryChanges.PermissionsGranted | interpreter/AuditLogsEntry.ts:129-140 | `permsGrant` and `overwriteGrant` are exactly the flags set in the new value and not the old. An absent record or side counts as no bits. |
| EntryChanges.PermissionsDenied | interpreter/AuditLogsEntry.ts:129-141 | `permsDeny` is empty unless the permissions record's `new` is truthy. Then it is the flags set in old and not in new. `overwriteDeny` is the flags the new deny value adds. |
| EntryChanges.PermissionsReset | interpreter/AuditLogsEntry.ts:131-144 | `overwriteReset` is empty unless `allow.new` or `deny.new` is truthy. Then it is the flags in old allow ∪ old deny and in neither new value. |
| EntryChanges.PermissionsAbsent | interpreter/AuditLogsEntry.ts:124-174 | Without any of the three records, all five lists and the descriptions are empty. |
| EntryChanges.PermissionDescription | interpreter/AuditLogsEntry.ts:150-167 | A description opens with its verb in bold. |
| EntryChanges.GrantedDescription | interpreter/AuditLogsEntry.ts:149-155 | The Granted description opens with "**Granted**". |
| EntryChanges.DeniedDescription | interpreter/AuditLogsEntry.ts:157-163 | The Denied description opens with "**Denied**". |
| EntryChanges.ResetDescription | interpreter/AuditLogsEntry.ts:165-168 | The Reset description opens with "**Reset**". |
| EntryChanges.PermissionDescriptionPlural | interpreter/AuditLogsEntry.ts:150 | "permissions" gets its "s" exactly when the counted lists together hold more than one name. |
| EntryChanges.FlagLinesNonEmpty | interpreter/AuditLogsEntry.ts:152 | Spaced flag names render as non-empty text when the last name is non-empty. |
| EntryChanges.ListingChoice | interpreter/AuditLogsEntry.ts:151-154 | The code block lists the permission names when there are any. Otherwise it lists the overwrite names. |
| EntryChanges.PermissionDescriptionsOrder | interpreter/AuditLogsEntry.ts:147-168 | There is one description per non-empty kind, so never more than three. Granted comes first exactly when something is granted, and Reset last exactly when something is reset. There is a Denied one exactly when something is denied. |
| EntryChanges.PermissionDescriptionsBold | interpreter/AuditLogsEntry.ts:147-168 | Every permission description opens in bold. |
| EntryChanges.RoleLines | interpreter/AuditLogsEntry.ts:186 | Each role is listed as `name (id)`, in input order. |
| EntryChanges.RoleHeadingWording | interpreter/AuditLogsEntry.ts:185 | One role reads "a role". More than one reads "some roles". |
| EntryChanges.RoleDescriptionVerb | interpreter/AuditLogsEntry.ts:185-190 | A role description opens with its bold verb. |
| EntryChanges.RoleDescriptionsBold | interpreter/AuditLogsEntry.ts:184-192 | Every role description opens in bold. |
| EntryChanges.RoleDescriptionsOrder | interpreter/AuditLogsEntry.ts:184-192 | There is one description per non-empty list, so none for zero roles. Added comes first and Removed last. |
| EntryChanges.RoleDescriptionLines | interpreter/AuditLogsEntry.ts:184-187 | Split into lines, a role description reads: heading, fence, one `name (id)` line per role in order, fence. |
| EntryChanges.CodeBlockLines | interpreter/AuditLogsEntry.ts:150-151 | A heading and a code block of separate lines read back as heading, fence, the lines, fence. |
| AuditLogs.DescriptionUnsupported | interpreter/AuditLogsEntry.ts:207-287 | The sentence starts "*Description not supported*" exactly for actions outside the switch. |
| AuditLogs.ActionItemsNotReasonLike | interpreter/AuditLogsEntry.ts:228-251 | The action's own items, role descriptions or prune days, never open like the reason item. |
| AuditLogs.ReasonFirst | interpreter/AuditLogsEntry.ts:209-250 | The first detail item is the reason exactly when the reason is truthy. |
| AuditLogs.NumberedItem | interpreter/AuditLogsEntry.ts:305-309 | Every item gives at least one line. |
| AuditLogs.Numbered | interpreter/AuditLogsEntry.ts:304-310 | Item `i` is numbered `i + 1`. |
| AuditLogs.NumberedItemJoin | interpreter/AuditLogsEntry.ts:305-309 | The lines of a numbered item join back to the item with its number in front. So only the first line is numbered. |
| AuditLogs.DetailLinesJoin | interpreter/AuditLogsEntry.ts:301-312 | The flattened detail lines join back to the items numbered 1..n in order. Nothing else changes. |
| AuditLogs.DetailLinesOneLine | interpreter/AuditLogsEntry.ts:301-312 | No flattened detail line contains a line break. |
| AuditLogs.Quote | interpreter/AuditLogsEntry.ts:315 | Every line is prefixed with "> ". |
| AuditLogs.QuotedLines | interpreter/AuditLogsEntry.ts:314-316 | Quoted single lines, joined, split back into those quoted lines. |
| AuditLogs.EntryLines | interpreter/AuditLogsEntry.ts:289-316 | With a one-line header and description, the lines of `toString()` are exactly the quoted block lines. Line 1 is "> [!NOTE]", line 2 the quoted header, line 4 the quoted description, and every line starts with "> ". |
| AuditLogs.MultiLineDescriptionUnquoted | interpreter/AuditLogsEntry.ts:288-316 | When the description holds a line break, the text after it becomes the last line of the output, and that line lacks the "> " quote marker. |
| AuditLogs.EntryStartsWithNote | interpreter/AuditLogsEntry.ts:289-316 | Every rendered entry starts with "> [!NOTE]". |
| AuditLogs.AuditLogsEntry.constructor | interpreter/AuditLogsEntry.ts:18-21 | The entry keeps its manager and its data. |
| AuditLogs.AuditLogsEntry.PermissionsChange | interpreter/AuditLogsEntry.ts:124-174 | The method computes `PermissionsChangeOf`, about which the EntryChanges lemmas above hold. |
| AuditLogs.PushDescriptions | interpreter/AuditLogsEntry.ts:147-168 | The pushes of `permissionsChange` give the Granted, Denied and Reset descriptions in order, each only when non-empty. |
| AuditLogs.AuditLogsEntry.MemberRoleChange | interpreter/AuditLogsEntry.ts:179-199 | The method computes `RoleChangesOf`, which reads `$add` and `$remove` as role lists with `?? []`. |
| AuditLogs.AuditLogsEntry.CollectDetails | interpreter/AuditLogsEntry.ts:206-250 | The pushes into `det` give the reason item, then the permission descriptions, then the action's own items. |
| AuditLogs.AuditLogsEntry.ReasonDetail | interpreter/AuditLogsEntry.ts:209 | The reason item, "With reason" and the quoted reason, appears only when the reason is neither missing nor empty. |
| AuditLogs.AuditLogsEntry.ActionDetails | interpreter/AuditLogsEntry.ts:228-251 | A member role update adds its role descriptions. A prune with truthy `extra.days` adds its inactivity item. No other action adds anything. |
| AuditLogs.AuditLogsEntry.Describe | interpreter/AuditLogsEntry.ts:207-287 | Reassigning `desc` in the switch gives the executor's name plus the action phrase for every known action, and the unsupported sentence otherwise. |
| AuditLogs.AuditLogsEntry.HeaderLine | interpreter/AuditLogsEntry.ts:291-296 | The header joins the bold spaced event name, the UTC date, `t =` with the time since the first entry, and the raw-data link with " \| ". |
| AuditLogs.BuildBlock | interpreter/AuditLogsEntry.ts:289-312 | `arr` is the marker, the header, a blank line and the description. When there are details, a blank line and the numbered lines follow. |
| AuditLogs.NumberDetails | interpreter/AuditLogsEntry.ts:301-312 | The numbering loop yields the detail lines of all items, in order. |
| AuditLogs.QuoteLines | interpreter/AuditLogsEntry.ts:314-315 | The quoting pass yields every line with "> " in front. |
| AuditLogs.AuditLogsEntry.ToString | interpreter/AuditLogsEntry.ts:205-317 | The method returns `EntryText` for the first entry's timestamp and the entry's line link. That is the text `EntryLines` and `EntryStartsWithNote` describe. |
| AuditLogs.LeadsDiffer | interpreter/AuditLogsEntryManager.ts:15-18 | The title and the `Δt = ` lines open with different characters. |
| AuditLogs.Manager.constructor | interpreter/AuditLogsEntryManager.ts:10-12 | `data` is kept as given. `dataLines` are the lines of the serialised reversed copy and join back to it. |
| AuditLogs.Manager.FindLineNumber | interpreter/AuditLogsEntryManager.ts:24-26 | The result is between 0 and the line count, and 0 exactly when no line contains the id. A result `k > 0` means line `k` contains the id and no earlier line does. |
| AuditLogs.Manager.CreateLineURL | interpreter/AuditLogsEntryManager.ts:28-30 | The link is the repository address + "/blob/main/audit_log.json#L" + decimal digits, and those digits read back as `findLineNumber(id)`. The digits are never empty and have no leading zero, so an id no line holds gives "#L0". |
| AuditLogs.Manager.Entries | interpreter/AuditLogsEntryManager.ts:17-18 | There is one rendered entry per entry, in `data` order. |
| AuditLogs.Manager.Deltas | interpreter/AuditLogsEntryManager.ts:18 | Entry `i > 0` is preceded by `Δt = ` and `timeDelta` of its timestamp minus the previous one. |
| AuditLogs.Manager.DeltaBefore | interpreter/AuditLogsEntryManager.ts:18 | The first entry gets no time-difference part. Every other entry gets a blank line and its `Δt` line. |
| AuditLogs.Manager.AppendedPiece | interpreter/AuditLogsEntryManager.ts:18 | One loop step appends the entry's time-difference part, a blank line and the entry's `toString()`. |
| AuditLogs.Manager.WriteContent | interpreter/AuditLogsEntryManager.ts:14-19 | The `content +=` loop computes `Content`: the title, then each entry's step in order. |
| AuditLogs.ReportSections | interpreter/AuditLogsEntryManager.ts:15-19 | The report's sections are the title, then every entry in order, each entry after the first preceded by its `Δt` line. That makes 2n sections for n > 0 entries. |
| AuditLogs.ReportJoin | interpreter/AuditLogsEntryManager.ts:15-19 | The report is its sections joined by blank lines. |
| AuditLogs.ReportStartsWithTitle | interpreter/AuditLogsEntryManager.ts:15 | The report starts with its title. |
| AuditLogs.SectionKinds | interpreter/AuditLogsEntryManager.ts:17-19 | When the title and entries do not open like the `Δt` lines, the sections that do are exactly those at even positions after the first. |
| AuditLogs.Manager.ContentLayout | interpreter/AuditLogsEntryManager.ts:14-19 | The content is the sections joined by blank lines and starts with "# Open source audit log data incident 5/5/2024". |
| AuditLogs.Manager.DeltaSections | interpreter/AuditLogsEntryManager.ts:17-19 | The sections that open with `Δt = ` sit exactly between consecutive entries, so n entries give n − 1 of them. |

## Left out

- Writing the file (interpreter/AuditLogsEntryManager.ts:21) and reading `audit_log.json`, `nameMap.json` and `package.json` are I/O. The entries are constructor arguments. The name table, the flag table and the repository address are fields of `Config`.
- `interpreter/index.ts` is entry-point plumbing (load, reverse, write) and is not part of this model. `interpreter/types.ts` only declares types, which are mirrored as datatypes in `types.dfy`.
- `JSON.stringify(…, null, '\t')` is a library serialiser. The manager's constructor takes it as a parameter.
- `parseUTCDate` depends on the platform's `Date`. It is the function `Config.utcDate`.
- `toLocaleString()` is locale-dependent. It is the function `Config.localeNumber`.
- discord.js is not part of this model:
  - `PermissionsBitField` becomes a set of bit indices and a flag table, `Config.flags`. `missing` is set difference, `add` is union and `toArray` lists flag names in table order.
  - `codeBlock` is given its documented shape: fence, line break, content, line break, fence.
  - The numeric `AuditLogEvent` codes become the `Action` datatype. Actions outside the switch carry their enumeration name, so a code with no enumeration name is not modelled.
- Functions.TimeDelta: the input is an integer number of milliseconds. `Math.round` on a floating-point timestamp is not modelled.
- `Ready` excludes entries whose change values fall outside the types the source declares for them (interpreter/AuditLogsEntry.ts:129-134 and 180-181). Most of these make the source throw:
  - a `permissions`, `allow` or `deny` value that is neither absent, `null` nor a bit-field;
  - for a member role update, a `$add` or `$remove` value that is not a role list. The `APIRole[]` cast at interpreter/AuditLogsEntry.ts:180-181 rules these out by type. Not all of them throw: for a number, a boolean or `""` the `length` test fails, and the source pushes no description.
- AuditLogs.EntryLines promises quoted lines only for a header and description without line breaks. The source quotes the elements of `arr`, not its lines (interpreter/AuditLogsEntry.ts:313-315). The detail items are split into lines first, but the header and description are not. A name or change value with a line break in it therefore puts text outside the callout, as `AuditLogs.MultiLineDescriptionUnquoted` shows.
- AuditLogs.AuditLogsEntry.ToString requires a non-empty manager. The source throws a `TypeError` reading `data[0].createdTimestamp` otherwise.
- Functions.ResolveName models the name table as a map of strings. Keys inherited from the JavaScript object prototype are not modelled.
- The getters of `AuditLogsEntry` are field reads of `data`. `target`, `executor`, `lineNumber` and `lineURL` have no model of their own: `lineURL` is `Manager.CreateLineURL`.
- The loosely typed `extra` payload keeps only the fields the formatter reads: `id`, `removed`, `days`, `count` and `channel`. `channel` is either an object with an optional `id` or a bare id string. A message delete names a bare id itself; a bulk delete falls back to the target for it, since a string has no `id`.
