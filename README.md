# ovsdb OVN/OVS helpers — a verified Dafny model

This project models the record-building and validation logic of the Go `ovsdb` client
library for Open vSwitch and OVN. It covers these parts:

- **`parseSocket`** (`util.dfy`) splits a connection string into a network and an address.
- **`parseLogicalPortAddress`** and **`GetLogicalSwitchPorts`** (`ovn_logical_switch_port.dfy`):
  - classify an OVN logical-port address string (`router`, `unknown`, `dynamic`, or a MAC
    followed by IP addresses or `dynamic`);
  - build one port per well-formed Logical_Switch_Port row;
  - join the Port_Binding rows into those ports in place.
- **`GetChassis`** (`ovn_chassis.dfy`) builds one chassis per well-formed Chassis row and
  joins the Encap rows into them in place.
- **`GetACL`** (`ovn_acl.dfy`) filters and maps the ACL rows.
- **`AppListCommands`** (`app_list_cmd.dfy`):
  - picks the northbound or southbound control socket;
  - queries and closes the client;
  - turns the reply into a set of normalised command names.
- **`GetSystemID`** and **`GetSystemInfo`** (`system.dfy`):
  - read the system id, which must be 36 bytes long;
  - overlay four version columns onto `external_ids`;
  - check the `system-id` and the required keys;
  - update the client's fields.

Shared pieces:

- `wrappers.dfy`: `Option`, `Result` and the `Error` variants that stand for the library's
  `fmt.Errorf` values.
- `strings.dfy`: Go's `strings.HasPrefix`, `Index`, `Split`, `Join` and `Fields`, and
  `unicode.IsSpace`.
- `rows.dfy`:
  - a query result row, as a map from column name to a decoded cell whose constructor is the
    type tag `GetColumnValue` reports ("string", "integer", "bool", "[]string",
    "map[string]string" or another tag);
  - a column whose lookup fails is absent from the map;
  - the filter-map shape that every row loop has.

Records that the Go code mutates by reference after appending them are classes:
`Chassis`, `Port` and `OvnClient`. So is the `ControlChannel`, whose `Close` calls are counted.

`Chassis`, `Port` and `OvnClient` each have a `View()` value, and each join method is proved
against a function of the old views:

- `AttachAll` for the chassis join;
- `BindAll` for the port-binding join.

The lemmas about those functions state the join's properties:

- only the first match is written;
- identities and the list length are kept;
- a shadowed record is never written;
- the last matching row wins.

Records never mutated after they are built (ACLs) are datatypes.

`parseSocket` never returns an error. Its only failure is a crash: a string that starts with
`unix` but has no `:` makes the Go code index past the end of the split result. The model
states this as the function's precondition. It does not invent an "invalid endpoint" error,
because the code has none.

## Model

| member | source | states |
|---|---|---|
| Util.ParseSocket | util.go:22-28 | Never fails. Without the `unix` prefix the result is ("tcp", s) with s unchanged (also for ""). With it, the network is the text before the first ':', the address runs to the second ':' or the end, and anything from a second ':' on is dropped. A `unix` string without ':' is excluded, because the code panics on it. |
| Util.SocketPieces | util.go:24-25 | With a ':' present, the split has at least two pieces, and the first two joined by ':' form a prefix of s that is followed by nothing or by ':'. |
| Util.UnixdIsAccepted | util.go:23-25 | The prefix test is not an exact scheme test: "unixd:/p" gives network "unixd" and address "/p". |
| Util.ExtraSegmentsDropped | util.go:24-25 | "unix:/a:b" gives ("unix", "/a"); the ":b" is silently lost. |
| Strings.Split | ovn_logical_switch_port.go:51 | strings.Split always yields at least one piece, so `addrs[0]` and `arr[0]` exist. |
| Strings.JoinSplit | app_list_cmd.go:51 | Joining the pieces of a split with the same separator gives the input back, so no text is lost by the split. |
| Strings.SplitPiecesLackSeparator | util.go:24 | No piece of a split contains the separator, so neither socket part contains ':'. |
| Strings.SplitWithoutSeparator | app_list_cmd.go:51 | A text without the separator splits into itself alone. |
| Strings.Fields | app_list_cmd.go:56 | Every field is a non-empty run of non-space characters. |
| Strings.Normalize | app_list_cmd.go:56 | Joining the fields with " " leaves no leading, trailing or repeated white space, and no white space other than ' '. |
| Strings.IsSpace | app_list_cmd.go:56 | The white space that separates command words is unicode.IsSpace: within Latin-1 exactly tab, line feed, vertical tab, form feed, carriage return, space, NEL (U+0085) and NBSP (U+00A0), plus the Unicode White_Space characters above Latin-1. |
| Strings.Join | app_list_cmd.go:56 | strings.Join of a non-empty list starts with the first piece, and its length is the pieces' total length plus one separator between each two pieces. |
| Strings.FieldsOfWhiteSpace | app_list_cmd.go:56 | A line has no fields exactly when all of its characters are white space. |
| Strings.WordLengthAppend | app_list_cmd.go:56 | Text appended after white space, or starting with white space, does not change where the first word ends. |
| Strings.FieldsAppend | app_list_cmd.go:56 | Fields of a concatenation are the fields of the two parts whenever the parts cannot share a word. With FieldsOfWhiteSpace and FieldsOfWordThenSpace this fixes the fields of every text: all maximal non-space runs, in order. |
| Strings.FieldsOfWordThenSpace | app_list_cmd.go:56 | A word followed by a space and more text is the first field. A word alone is the only field. |
| Strings.Utf8Length | system.go:39 | Go's len of a string is its UTF-8 byte count: at least its character count, at most four times it, and equal to it exactly when every character is ASCII. |
| Strings.Utf8LengthAppend | system.go:39 | The byte length of a concatenation is the sum of the parts' byte lengths. |
| Strings.FieldsOfJoin | app_list_cmd.go:56 | Splitting the normalised text into fields again gives the same words. |
| Strings.NormalizeIdempotent | app_list_cmd.go:56 | Normalising twice is the same as normalising once. |
| Rows.StringColumn | ovn_acl.go:42-49 | A column counts only when its lookup succeeds and its tag is "string"; the value is then the row's. |
| Rows.IntegerColumn | ovn_logical_switch_port.go:195-201 | A column counts only when its lookup succeeds and its tag is "integer". |
| Rows.ExternalIds | ovn_acl.go:50-56 | A failed `external_ids` lookup gives an empty map. A "map[string]string" value is taken as it is. Any other tag leaves the map nil. |
| Rows.Uint64 | ovn_logical_switch_port.go:201 | uint64(int64) keeps non-negative keys and wraps negative ones modulo 2^64 into [0, 2^64). |
| Rows.FilterMap | ovn_acl.go:40-58 | A row loop that skips rows never yields more records than rows. |
| Rows.FilterMapAppend | ovn_acl.go:40-58 | The row loop works piecewise, so records keep the order of their rows. |
| Rows.FilterMapMembers | ovn_acl.go:40-58 | Every kept row's record is in the output, and every output record comes from a kept row. |
| Rows.FilterMapAllKept | ovn_chassis.go:45-72 | When no row is skipped, the output has exactly one record per row, position by position. |
| OvnAcl.GetAcl | ovn_acl.go:29-60 | A failed query gives an error, and zero rows gives an error. Otherwise the result is, in row order, one ACL per row with a string `_uuid`, carrying that row's external ids. |
| OvnAcl.AclsComeFromRows | ovn_acl.go:40-58 | No more ACLs than rows. Every ACL comes from a row with that string `_uuid` and its external ids. Every such row yields its ACL. |
| OvnAcl.AclUuidsInRowOrder | ovn_acl.go:40-57 | The listed UUIDs are exactly the rows' string `_uuid` values, in row order. |
| OvnChassis.ChassisOf | ovn_chassis.go:45-71 | A Chassis row is kept exactly when `_uuid`, `name` and `encaps` all decode as "string"; the record then carries those three values, with empty IP address and protocol and Up 0. |
| OvnChassis.EncapOf | ovn_chassis.go:84-119 | An Encap row is used exactly when `_uuid`, `type`, `chassis_name` and `ip` all decode as "string"; the encapsulation then carries those four values. Any other row is skipped. |
| OvnChassis.Chassis.constructor | ovn_chassis.go:46-70 | A new chassis has the row's UUID, name and encapsulation UUID; the IP address and protocol are empty and Up is 0. |
| OvnChassis.CollectChassis | ovn_chassis.go:45-72 | One fresh, distinct chassis per row whose `_uuid`, `name` and `encaps` are strings, in row order. |
| OvnChassis.FirstMatch | ovn_chassis.go:120-126 | The index of the first chassis whose encapsulation UUID and name match the Encap row; no earlier chassis matches. |
| OvnChassis.AttachEncap | ovn_chassis.go:120-130 | The inner loop changes the chassis list exactly as Attach does: only the first match gets the IP address and protocol. |
| OvnChassis.AttachEncaps | ovn_chassis.go:83-131 | The outer loop changes the list exactly as AttachAll does over the Encap rows, in order. |
| OvnChassis.GetChassis | ovn_chassis.go:34-133 | A failed Chassis query gives an error, and so do zero Chassis rows. The same holds for the Encap query. Otherwise the result is the filtered Chassis rows with the Encap rows joined in. |
| OvnChassis.AttachUpdatesFirstMatchOnly | ovn_chassis.go:120-130 | Attach writes only the first matching chassis, and only its IP address and protocol. |
| OvnChassis.FirstMatchByIdentity | ovn_chassis.go:121-126 | The first match depends only on fields the join never writes. |
| OvnChassis.AttachAllKeepsIdentities | ovn_chassis.go:83-132 | The join keeps the list length, and every UUID, name, encapsulation UUID and Up value. |
| OvnChassis.UntargetedChassisUnchanged | ovn_chassis.go:83-131 | A chassis that no Encap row reaches as its first match keeps its whole record. |
| OvnChassis.ShadowedChassisUnchanged | ovn_chassis.go:120-130 | A chassis listed after another with the same encapsulation UUID and name is never updated. |
| OvnChassis.LastEncapWins | ovn_chassis.go:83-131 | When several Encap rows reach the same chassis, that chassis ends with the last row's IP address and protocol. |
| OvnLogicalSwitchPort.ParseLogicalPortAddress | ovn_logical_switch_port.go:50-91 | Covers every case of the first token: `router` sets Router alone; `unknown` sets Unknown alone; `dynamic` sets Unknown (not Dynamic) and parses each later token as an IP; otherwise the MAC is parsed from the first token. After a MAC, `dynamic` sets Dynamic and drops the rest; anything else gives one IP per later token, in order. The flags are mutually exclusive. |
| OvnLogicalSwitchPort.DynamicFirstIsUnknown | ovn_logical_switch_port.go:64-73 | "dynamic " + rest is marked unknown, with one IP entry per token of rest. |
| OvnLogicalSwitchPort.DynamicAfterMacIgnoresRest | ovn_logical_switch_port.go:76-82 | mac + " dynamic " + rest sets Dynamic, keeps the MAC, and has no IPs, whatever rest holds. |
| OvnLogicalSwitchPort.DoubleSpaceGivesEmptyToken | ovn_logical_switch_port.go:80-87 | Two spaces give an empty token. Because net.ParseIP("") is nil, it becomes a nil IP entry, not an error. |
| OvnLogicalSwitchPort.Port.constructor | ovn_logical_switch_port.go:106-145 | A new port has the row's UUID, name, addresses, external ids and Up; the binding fields are empty and the tunnel key is 0. |
| OvnLogicalSwitchPort.ReadAddresses | ovn_logical_switch_port.go:135-144 | A "string" value gives one parsed address. A "[]string" value gives one per element, in order. Anything else gives none. |
| OvnLogicalSwitchPort.ReadPortRow | ovn_logical_switch_port.go:106-144 | A row without a string `_uuid` or `name` is skipped. `up` is copied only when its tag is "bool". A failed `external_ids` lookup gives an empty map. |
| OvnLogicalSwitchPort.CollectPorts | ovn_logical_switch_port.go:105-146 | One fresh, distinct port per kept row, in row order. |
| OvnLogicalSwitchPort.FirstNamed | ovn_logical_switch_port.go:203-204 | The index of the first port with the binding's logical port name; no earlier port has it. |
| OvnLogicalSwitchPort.BindPort | ovn_logical_switch_port.go:203-211 | The inner loop changes the ports exactly as Bind does: only the first port with the name gets the four binding fields. |
| OvnLogicalSwitchPort.BindPorts | ovn_logical_switch_port.go:157-212 | The outer loop changes the ports exactly as BindAll does, applying each row whose five columns have the expected tags, in order. |
| OvnLogicalSwitchPort.GetLogicalSwitchPorts | ovn_logical_switch_port.go:94-214 | A failed query of either table gives an error, and so do zero rows from either. Otherwise the result is the filtered ports with the bindings joined in. |
| OvnLogicalSwitchPort.BindUpdatesFirstNamedOnly | ovn_logical_switch_port.go:203-211 | Bind writes only the first port with the name, and only its binding UUID, chassis, datapath and tunnel key. |
| OvnLogicalSwitchPort.FirstNamedByIdentity | ovn_logical_switch_port.go:203-204 | Which port a name selects does not depend on the binding fields. |
| OvnLogicalSwitchPort.BindAllKeepsIdentities | ovn_logical_switch_port.go:157-212 | The join keeps the list length and every UUID, name, address list, external id map and Up flag. |
| OvnLogicalSwitchPort.ShadowedPortUnbound | ovn_logical_switch_port.go:203-211 | A port whose name an earlier port already has is never bound. |
| OvnLogicalSwitchPort.LastBindingWins | ovn_logical_switch_port.go:157-212 | When several bindings name the same port, that port ends with the last binding's four fields. |
| AppListCmd.ControlChannel.Query | app_list_cmd.go:41 | A query returns the server's reply or error and is recorded. |
| AppListCmd.ControlChannel.Close | app_list_cmd.go:43-46 | Close adds one to the close count. |
| AppListCmd.CommandKeysSnoc | app_list_cmd.go:52-57 | One more line adds its normalised form when it starts with a space, and nothing otherwise. |
| AppListCmd.CollectCommands | app_list_cmd.go:52-57 | The map's keys are exactly the normalised space-indented lines, and every value is true. |
| AppListCmd.AppListCommands | app_list_cmd.go:25-59 | An unsupported database gives an error and an empty map, and no client is touched. A connect failure gives an error. A connected client is queried once and closed exactly once, whether or not the query fails. An empty reply gives an error. Otherwise the keys come from the reply split on backslash-n. |
| AppListCmd.KeysAreNormal | app_list_cmd.go:56 | Every key has no leading, trailing or repeated white space, and normalising it again changes nothing. |
| AppListCmd.KeysKeepWords | app_list_cmd.go:53-56 | Each space-indented line contributes a key with the line's words, in order. |
| AppListCmd.DuplicateLinesCollapse | app_list_cmd.go:56 | A repeated line adds no key. |
| AppListCmd.NewlineCharactersDoNotSplit | app_list_cmd.go:51 | A real newline character does not separate lines. A reply without backslash-n that starts with a space is one line, giving exactly one key. |
| AppListCmd.EscapedNewlineSplits | app_list_cmd.go:51-57 | Two space-indented lines joined by backslash-n give the two normalised keys. |
| System.IdFromFile | system.go:31-41 | An unreadable file is an error. Otherwise the first line is the id exactly when its UTF-8 encoding is 36 bytes long (so it has 9 to 36 characters), and any other byte length is reported. |
| System.IdLengthCountsBytes | system.go:39-40 | For an ASCII line, such as a UUID, 36 bytes means 36 characters. Other text is measured in bytes: 18 copies of U+00E9 are accepted as an id, and 36 copies are rejected as 72 bytes long. |
| System.OvnClient.GetSystemId | system.go:24-44 | On success only the id field changes, to the file's 36-byte line. On any error nothing changes. |
| System.OvnClient.GetSystemInfo | system.go:48-123 | A file error changes nothing. Otherwise the file id is stored first and stays stored when a later check fails. On success all seven fields are taken from the validated map. |
| System.ReadSystemInfo | system.go:68-113 | The steps after the id is stored give exactly SystemInfo: query error, zero rows, the first row's `external_ids`, the overlay, the system-id check and the required keys, in that order. |
| System.OverlayVersions | system.go:87-97 | The loop over the four version columns gives exactly the Overlay result. |
| System.OverlaySucceeds | system.go:87-97 | The overlay succeeds exactly when every column is a "string". Each column's value is then the row's, every other key keeps its value, and no other key appears. |
| System.OverlayFailsAtFirstBadColumn | system.go:87-95 | A failed overlay names the first column that is not a "string": a parse failure when it is missing, a type error when its tag is wrong. |
| System.FirstMissing | system.go:108-113 | The index of the first required key the map lacks; all earlier keys are present. |
| System.CheckRequiredKeys | system.go:108-113 | No error exactly when every required key is present; otherwise the first missing key is reported. |
| System.Validate | system.go:100-113 | Passes exactly when the map's system-id equals the file id and every required key is present. A missing system-id and a mismatched one are reported as such. |
| System.SystemInfo | system.go:68-113 | A successful result carries the file's system id and every required key. |
| System.SystemInfoSucceeds | system.go:73-113 | Success happens exactly when the first row's `external_ids` is a "map[string]string" holding the file's system-id, "rundir" and "hostname", and the four version columns are strings. The version values then come from the row. |
| System.RequiredAfterOverlay | system.go:86-113 | After a successful overlay, the required keys are all present exactly when `external_ids` had "rundir" and "hostname", and its system-id is unchanged. |
| System.OnlyRunDirOrHostnameCanBeMissing | system.go:86-113 | Once the overlay succeeds, a missing-key error can only name "rundir" or "hostname". |
| System.OnlyFirstRowCounts | system.go:77-99 | Rows after the first never change the outcome. |

## Left out

- The query engine is not part of this model: the SELECT translator, the condition parser, the schema type resolver and the JSON-RPC client. Their outcomes are inputs: a query result is either an error or a sequence of rows, each mapping a column to a decoded, tagged cell.
- `GetColumnValue` is not part of this model. Each row already holds its result per column.
- `net.ParseMAC` and `net.ParseIP` are function parameters mapping a token to an optional byte sequence; None stands for nil.
- Sockets, `NewClient` dialing, `Transact` and the control-socket `query` are not modelled. The dial outcome of each control socket is an input, and a `ControlChannel` holds its fixed reply.
- File I/O in system.go (`os.Open`, `bufio.Scanner`): the first line of the system-id file is an input. None stands for an open or read error; an empty file gives "".
- System.IdFromFile: the first line is a string of Unicode characters, so a file whose bytes are not valid UTF-8 is not represented. Its byte length is Utf8Length of the characters.
- Error message texts are left out. Each error is an `Error` variant naming its table, column, key or database, and the two Go messages for zero Encap rows and zero Chassis rows are the same variant.
- app_coverage.go is left out: its `strconv.ParseFloat` metrics are floating point behind socket I/O.
- `encodeString` in util.go is left out: it only wraps `encoding/json`.
- Util.ParseSocket: requires a ':' in any string starting with "unix", because the code panics on such a string instead of returning.
- OvnLogicalSwitchPort.Port.constructor: the `Encapsulation`, `ChassisIPAddress`, `LogicalSwitchUUID` and `LogicalSwitchName` fields are never written by the modelled code and are not represented.
- nil slices are modelled as empty sequences. Go's nil-versus-empty distinction for returned lists on error paths is not kept, since results are Failure values there.
- System.OvnClient.GetSystemInfo: the Go `systemInfo` map is the very map `GetColumnValue` returned for `external_ids`, so the overlay also writes into that decoded value. The model copies the map, so this aliasing is not represented.
- System.OvnClient.GetSystemInfo: the table name `cli.Database.Vswitch.Name` is the `dbName` parameter.
- Concurrency is out of scope: the library makes no concurrent calls in these functions.
