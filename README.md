# Forward-rule console: input validation and client-side rule bookkeeping

This project models, in Dafny, the small pieces of logic inside the web
console of a TCP/UDP forwarding proxy. Operators use the console to add,
edit and delete port-forwarding rules:

- **The forward-rule form** (`components/Modal.tsx`). `validateAddress`
  accepts an address if it matches a dotted-quad pattern, matches a hostname
  pattern, or is empty. `validatePort` accepts a blank field or a port in
  0..49151. `handleSubmit` either records four error messages or hands a
  `ForwardRule` to its caller.
- **The transport port check** (`components/netcat.js`). `validatePort` reads
  its argument with JavaScript's `parseInt` and throws `Invalid port number`
  for NaN or a negative value. `sendToServer` validates the port before it
  sends anything.
- **The dashboard's rule list** (`pages/index.tsx`). The list is a
  `ForwardRules[]` (`components/lib.ts`). The dashboard gives a new rule the
  next id and appends it, filters a rule out by id, replaces a rule by id,
  and numbers a freshly fetched list 0..n-1.

Modules:

- `Lib` (lib.dfy) holds the rule records. A JavaScript number in a rule field
  is `Number = Int(int) | NaN`. NaN appears because a blank port field
  becomes `parseInt('', 10)`.
- `Numerals` (numerals.dfy) holds decimal and hexadecimal digits and the
  value of a digit string. The IPv4 pattern and `parseInt` share it.
- `DotLabels` (labels.dfy) splits a string at its dots and joins labels with
  dots. Both directions are proved lossless.
- `Modal` (modal.dfy) holds the validators and the submit decision. The form
  is a class whose `HandleSubmit` updates the error messages.
  - Each regular expression is an explicit predicate: `OctetPattern` reads
    one octet group alternative by alternative, and `HostnameLabels` reads
    the hostname pattern label by label.
  - Each predicate is proved equal to an independent description of its
    language: `IsDottedQuad` (four decimal octets with dots between them)
    and `IsPatternHostname` (pattern labels with dots between them).
- `Netcat` (netcat.dfy) holds ECMAScript `parseInt` with no radix:
  - it skips leading white space and takes one sign;
  - a `0x`/`0X` prefix switches to base 16;
  - it reads the longest run of digits.

  It also holds `validatePort` and `sendToServer`. The network is an object
  that records the packets handed to it.
- `Dashboard` (dashboard.dfy) holds the list transformations as functions and
  the dashboard state as a class. Every handler keeps the ids strictly
  increasing (`IdsIncreasing`).

The model follows the code:

- The destination address may be empty, because `validateAddress('')`
  returns `''`.
- A "hostname" is whatever the pattern accepts. That includes
  "999.1.11.11", and it excludes single labels such as "localhost" and
  names whose third or later label has one character.
- The transport check has no upper bound on the port.

## Model

| member | source | states |
|---|---|---|
| Lib.WithId | components/lib.ts:11-21 | a listed record carries the given id, and dropping the id gives back the original rule |
| Lib.StripId | pages/index.tsx:51-57 | the copied `ForwardRule` holds the record's five fields, so adding the record's id back gives the record |
| DotLabels.JoinSplit | components/Modal.tsx:38-39 | joining the dot-separated labels of a string with dots gives the string back, and no label contains a dot |
| DotLabels.SplitJoin | components/Modal.tsx:38-39 | splitting a dot-join of dot-free labels gives back exactly those labels |
| Modal.OctetPattern | components/Modal.tsx:38 | an octet group the IPv4 pattern accepts is 1 to 3 decimal digits |
| Modal.Ipv4Pattern | components/Modal.tsx:38 | whatever the IPv4 pattern accepts is four decimal octets (value at most 255) joined by dots |
| Modal.HostnamePattern | components/Modal.tsx:39 | whatever the hostname pattern accepts is a sequence of pattern labels joined by dots |
| Modal.ValidateAddress | components/Modal.tsx:37-48 | the result is either `''` or the single fixed error message, and the empty string is accepted |
| Modal.OctetPatternMeaning | components/Modal.tsx:38 | an octet group of the IPv4 pattern matches exactly 1 to 3 decimal digits with value at most 255, leading zeros allowed |
| Modal.Ipv4PatternMeaning | components/Modal.tsx:38 | the IPv4 pattern matches exactly the strings that are four decimal octets separated by dots |
| Modal.HostnamePatternMeaning | components/Modal.tsx:39 | the hostname pattern matches exactly the strings written as: a first label of 1-63 `[A-Za-z0-9-]` not starting or ending with `-`, a second label of 1-63 such characters, and any number of further labels of 2-63 such characters, separated by dots |
| Modal.ValidateAddressMeaning | components/Modal.tsx:41-47 | `validateAddress` returns `''` if and only if the address is a dotted quad, a pattern hostname or empty |
| Modal.DottedQuadAccepted | components/Modal.tsx:38-42 | every string of four dot-separated octets with 1-3 digits each and value at most 255 (e.g. "001.02.3.255") is accepted |
| Modal.SingleLabelRejected | components/Modal.tsx:39-46 | every non-empty string without a dot is rejected, since both patterns need a dot |
| Modal.LocalhostRejected | components/Modal.tsx:39-46 | "localhost" is rejected |
| Modal.ValidateAddressOfLabels | components/Modal.tsx:38-47 | for an address written as dot-free labels, acceptance is decided by the labels: four octet groups, hostname labels, or empty |
| Modal.ThirdLabelNeedsTwoChars | components/Modal.tsx:39 | "a.b.cd" is accepted and "a.b.c" is rejected |
| Modal.NumericHostnameAccepted | components/Modal.tsx:38-44 | "999.1.11.11" fails the IPv4 pattern, matches the hostname pattern, and is therefore accepted |
| Modal.NumericHostnameRejected | components/Modal.tsx:38-46 | "999.1.1.1" is rejected |
| Modal.ValidatePort | components/Modal.tsx:50-55 | the result is `''` exactly when the field is blank or the port is a system or user port (0..49151, section 6 of RFC 6335); otherwise it is the fixed range message |
| Modal.PortNumber | components/Modal.tsx:73-74 | an entered port is carried into the rule unchanged; a blank one becomes NaN |
| Modal.Decide | components/Modal.tsx:57-82 | a rejection carries all four messages, at least one non-empty; a submission has all four checks empty, and its rule copies the protocol and both addresses and keeps the entered ports |
| Modal.DecideSubmitsExactlyValidForms | components/Modal.tsx:57-71 | the form is submitted if and only if both addresses and both ports are acceptable |
| Modal.RuleForm.HandleSubmit | components/Modal.tsx:57-86 | on a failed check the four messages are recorded and no rule is passed on; otherwise exactly one rule (the decided one) is passed to `onSubmit` and the messages stay as they were |
| Netcat.ParseUnsigned | components/netcat.js:4 | a number is read only when the text starts with a decimal digit, and one is always read from a leading decimal digit without a `0x` prefix |
| Netcat.ParseInt | components/netcat.js:4 | `parseInt` gives NaN unless its argument contains a decimal digit |
| Netcat.TrimStart | components/netcat.js:4 | the leading white space `parseInt` skips ends at the first character that is not white space, and the rest of the string is unchanged |
| Netcat.DigitRun | components/netcat.js:4 | `parseInt` reads the longest prefix made of digits |
| Netcat.ValidatePort | components/netcat.js:3-9 | the port is accepted exactly when it parses to a non-negative integer and is returned as parsed; otherwise the error is `Invalid port number` |
| Netcat.DecimalStringFacts | components/netcat.js:4 | the decimal numeral of a non-negative integer is a non-empty digit string without a leading zero whose value is that integer |
| Netcat.ParseIntOfNumberString | components/netcat.js:4 | `parseInt` of the string JavaScript writes for an integer of magnitude below 10^21 gives that integer back |
| Netcat.ValidatePortOfInteger | components/netcat.js:4-8 | every non-negative integer below 10^21, including those above 65535, is returned unchanged; every negative integer above -10^21 is rejected with `Invalid port number` |
| Netcat.ValidatePortIdempotent | components/netcat.js:4-8 | validating an already validated port below 10^21 returns the same port |
| Netcat.NoDigitRejected | components/netcat.js:4-6 | input without any decimal digit parses to NaN and is rejected |
| Netcat.TrailingTextIgnored | components/netcat.js:4-8 | text after the digits is ignored, so "8080abc" passes as 8080 |
| Netcat.HexadecimalAccepted | components/netcat.js:4-8 | a `0x` prefix is read as base 16, so "0x1F" passes as 31 |
| Netcat.Network.Send | components/netcat.js:16 | sending appends exactly the given packet to what was sent before |
| Netcat.SendToServer | components/netcat.js:11-17 | an invalid port fails with `Invalid port number` before anything is sent; a valid one leads to exactly one send, to the validated port and not the raw argument |
| Dashboard.LatestId | pages/index.tsx:19 | the latest id is the last rule's id, and 0 for an empty list |
| Dashboard.NextId | pages/index.tsx:19-21 | the new id is 1 for an empty list and the last rule's id plus one otherwise (1 also when the last id is 0) |
| Dashboard.AddRule | pages/index.tsx:19-27 | appending keeps every existing rule in place and in order, and the new last rule is the submitted rule under the next id |
| Dashboard.AddRuleKeepsIdsIncreasing | pages/index.tsx:19-21 | in a list with increasing ids the new id exceeds every id, so the list stays increasing |
| Dashboard.RemoveById | pages/index.tsx:73 | the filtered list is no longer than the list and holds no rule with the deleted id |
| Dashboard.RemoveByIdExactly | pages/index.tsx:73 | the filtered list holds exactly the rules whose id differs from the target, each as often as before, unchanged and in their original relative order |
| Dashboard.RemoveByIdKeepsIdsIncreasing | pages/index.tsx:73 | deleting keeps the ids increasing |
| Dashboard.FindById | pages/index.tsx:50 | `find` returns the first rule with the id, or nothing exactly when no rule has it |
| Dashboard.DeleteRule | pages/index.tsx:49-75 | when a rule has the id, the payload is the found rule without its id and the list becomes the filtered list whatever the server replies; when none does, the handler throws and nothing changes |
| Dashboard.MatchesEditing | pages/index.tsx:92 | a rule matches only when a rule is being edited and both source ports are numbers, since NaN equals nothing |
| Dashboard.EditTargetId | pages/index.tsx:92 | the target id is the first rule's id when that rule's srcAddr and srcPort match the rule being edited, and 0 otherwise |
| Dashboard.ReplaceById | pages/index.tsx:113 | the length is kept; each position holds the new rule if its id equals the new rule's id and is untouched otherwise |
| Dashboard.ReplaceByIdKeepsIds | pages/index.tsx:113 | replacing by id never changes the id at any position, so increasing ids stay increasing |
| Dashboard.ReplaceByIdAt | pages/index.tsx:113 | with distinct ids, replacing under the id of one position rewrites that position alone |
| Dashboard.EditRule | pages/index.tsx:90-114 | the edited list has the same length and the same id at every position; the positions whose id is the target id hold the submitted rule under that id, and every other position is unchanged |
| Dashboard.EditRuleOverwritesFirstRule | pages/index.tsx:92-113 | with ids 0 and 1 (as getlist numbers them), editing the second rule overwrites the first and leaves the second as it was |
| Dashboard.EditingRuleId | pages/index.tsx:92 | the id of the first rule matching the rule being edited, or 0 when none matches |
| Dashboard.EditRuleCorrectedRewritesEditedRule | pages/index.tsx:90-114 | with the corrected lookup and distinct ids, editing rewrites exactly the first matching rule and keeps its id |
| Dashboard.GetList | pages/index.tsx:122-140 | a non-empty fetched list becomes the same rules in input order with ids 0..n-1 and copied fields; an empty one leaves the current list unchanged |
| Dashboard.State.HandleAddRule | pages/index.tsx:18-47 | when the reply reaches the update branch, the list becomes the appended list; otherwise it is unchanged; ids stay increasing |
| Dashboard.State.HandleDeleteRule | pages/index.tsx:49-75 | the payload sent, and the list after the delete as DeleteRule states it; ids stay increasing |
| Dashboard.State.HandleModifyRule | pages/index.tsx:77-88 | the rule being edited becomes the selected rule without its id |
| Dashboard.State.HandleEditRule | pages/index.tsx:90-119 | when the reply reaches the update branch, the list becomes the as-written edited list; otherwise it is unchanged; ids stay increasing |
| Dashboard.State.Refresh | pages/index.tsx:121-143 | the list after getlist, as GetList states it; ids stay increasing |

## Findings

| source | as written | input that shows it | evidently intended | confidence | as-written member | corrected member |
|---|---|---|---|---|---|---|
| pages/index.tsx:92 | `rules.map(…)[0]`, with 0 as fallback, looks only at the first rule, so editing any other rule gets target id 0 | a fetched list numbered [A: 0, B: 1]; edit B: the edited B replaces A (id 0) and B is left as it was | the id of the rule being edited, i.e. the first rule whose srcAddr and srcPort match | not executed; high | Dashboard.EditRuleOverwritesFirstRule | Dashboard.EditRuleCorrectedRewritesEditedRule |

`Dashboard.State.HandleEditRule` models the code as written. The corrected
lookup is `Dashboard.EditingRuleId`, used by `Dashboard.EditRuleCorrected`.

## Left out

- React rendering, hooks and component wiring are UI. The form's initial
  values come from `initialData` through `useState`/`useEffect`, and a port
  of 0 briefly reads as blank because of `|| ''`. The constructor of
  `Modal.RuleForm` simply takes the five field values.
- The `fetch` calls are network I/O. Whether a reply reaches the list update
  in the add and edit handlers is the `listUpdated` parameter; in the source
  that branch is a non-ok reply whose `error` is `''`.
  The `setLoading` toggle and the refetch it triggers are not modelled;
  `Dashboard.State.Refresh` is getlist given the fetched data.
- The `console.log` calls and the `netcat/client` connection are I/O.
  `Netcat.Network.Send` only records the packet.
- The `pino` logger in `components/lib.ts` is a foreign call.
- The server-side handler `pages/api/forward/[forward].ts` (rule store, audit
  log, authorisation) is not part of this model. The proxy control-message
  encoding and endpoint selection are not part of these files.
- JavaScript numbers are modelled as unbounded integers plus NaN:
  - fractional values such as `Number('1.5')` are not represented;
  - values beyond 2^53, Infinity, and the approximation `parseInt` may apply
    after 20 significant digits are not modelled.
- Modal.ValidatePort: a form port is a blank field or an integer; a
  fractional number, which the source accepts in range, cannot be stated.
- Netcat.ValidatePort: the argument is the string `parseInt` converts it to.
  Number arguments are covered through `Netcat.NumberString`, which matches
  JavaScript's `String(n)` only for integers of magnitude below 10^21.
- JavaScript regular expressions match UTF-16 code units and Dafny strings
  hold Unicode scalar values. Both patterns accept only ASCII characters, so
  the two agree on every input.
- Netcat.ParseIntOfNumberString: stated only for magnitudes below 10^21.
  From 10^21 up, `String(n)` uses exponent notation (`String(1e21)` is
  "1e+21"), and `parseInt` of that reads 1, not n.
- Netcat.ValidatePortOfInteger: stated only for magnitudes below 10^21. From
  10^21 up the source returns the leading digit of the exponent form, so
  `validatePort(1e21)` is 1.
- Netcat.ValidatePortIdempotent: stated only for validated ports below 10^21.
  The source is not idempotent above that point: a port of 1e21 validates to
  1 when given as a number.
- The protocol is a free string, copied unchanged, as in the source.
