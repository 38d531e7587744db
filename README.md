# MonitorBoss / pyddc core in Dafny

This project models the core of MonitorBoss, a tool that controls external monitors over
DDC/CI. DDC/CI is the VESA Display Data Channel Command Interface, carried over I2C. The model
covers four layers:

- **The Apple-silicon DDC/CI transport** (`pyddc/macos.py`):
  - The XOR checksum and the framing of an outgoing packet, `[0x80 | (n+1), n, payload…, checksum]`.
  - The write/read exchange with its retry loop.
  - The decoding of a VCP feature reply into `(current, max)`.
  - The display enumeration that walks the I/O Registry. This is modelled over an abstract
    list of nodes rather than IOKit.
- **The simulated monitor** used by the tests (`test/pyddc/vcp_dummy.py`). It has fixed tables of
  supported codes and maxima. It also has one table of current values that every handle
  shares and that a successful set updates in place.
- **The session operations** (`monitorboss/impl.py`):
  - picking a monitor by Python index;
  - reading a feature;
  - writing a feature, which echoes the requested value;
  - toggling a feature: one read, then one write of the other value.

  Each operation maps the monitor's exceptions to the tool's own errors.
- **The command-line helpers** (`monitorboss/cli.py`):
  - resolving feature, monitor and value arguments against the configured aliases;
  - rendering monitor and value labels;
  - the order of calls and pauses when a get, set or toggle runs over several monitors.

## Layout

| file | module | models |
|---|---|---|
| `wrappers.dfy` | `Wrappers` | `Option` (Python's `None`) and `Result` (a value, or the exception raised) |
| `text.dfy` | `Text` | `str(int)`, decimal `int(str)`, `str.isdigit`, `", ".join`, `str.strip` |
| `vcp_command.dfy` | `Vcp` | insertion-ordered dictionaries, the VCP command descriptor, `VCPFeatureReturn`, the exception kinds |
| `ddc_packet.dfy` | `DdcPacket` | `checksum`, packet construction, reply validation and decoding |
| `ddc_exchange.dfy` | `DdcExchange` | a scripted I2C channel (`Bus`), `performDDCCommunication`, `read` |
| `ioreg_enum.dfy` | `IoregEnumeration` | `ioregIterateToNextObjectOfInterest`, `setIORegServiceDCPAVServiceProxy`, `getIoregServicesForMatching`, `ddc_displays` |
| `vcp_dummy.dfy` | `VcpDummy` | `DummyVCP`, its tables and `get_vcps` |
| `session.dfy` | `Session` | `_get_monitor`, `get_attribute`, `set_attribute`, `toggle_attribute` |
| `cli.dfy` | `Cli` | `_check_feature`, `_check_mon`, `_check_val`, `_monitor_str`, `_value_str`, the loops of `_get_attr`, `_set_attr`, `_tog_attr` |

## How the model is built

Each imperative routine of the source is a Dafny `method` with its loop and invariants. Its
contract ties it to a specification function, and lemmas prove the source's properties about
that function.

- **Packet construction.** `BuildPacket` appends to a sequence of bytes and patches the
  last byte, as the source does. It is proved to produce the reference encoding `Encode`.
  `EncodeLayout`, `EncodedPacketValidates` and `SingleByteChangeDetected` are the properties of
  that encoding.
- **The exchange.** It runs against a `Bus` class. The bus answers the n-th write with
  `writeStatus(n)` and the n-th read with `readAnswer(n)`, and it logs every transaction.
  `RetryAttempts` is proved equal to the function `Outcome`. `OutcomeShape`,
  `FirstSuccessfulAttemptWins`, `AllAttemptsFail` and `OnlyLastWriteCounts` characterise that
  function.
- **The enumeration's records are heap objects (`ServiceRecord`).** The source appends the
  same record object once per proxy node that follows a framebuffer, and a later proxy
  overwrites what an earlier one stored (`SharedRecord` shows this). `GetServicesForMatching` is
  proved against the functional walk `EnumerateFrom`. That includes which list elements are the
  same object. `EnumerateIsFold` proves the walk equal to a node-by-node reference fold.
- **The simulated monitor's current values live in one `DummyState` object.** Every handle
  from `get_vcps` shares it, because the Python table is module-level. A ghost request log
  records the order of reads and writes, so the session layer can state that a toggle reads
  before it writes.
- **The command-line loops share one function, `Loop`.** It makes one session call per
  monitor, pausing after each successful call but the last, and the first error ends it.
  `_set_attr` runs the calls twice, as the source does: once in its paced loop and again in the
  list comprehension, whose results are the ones reported.

In the exchange, a read that returns status 0 sets the success flag to the reply's checksum
test alone, and the status of the preceding write is dropped (`pyddc/macos.py:131-132`);
`DdcExchange.Attempt` states this rule.

## Model

| member | source | states |
|---|---|---|
| DdcPacket.Checksum | pyddc/macos.py:67-74 | `chk` XOR `data[start]` … XOR `data[end]`, with `end` inclusive; `chk` itself when `end < start` |
| DdcPacket.XorFoldAppend | pyddc/macos.py:71-74 | folding a concatenation folds the second part onto the fold of the first |
| DdcPacket.WriteSeed | pyddc/macos.py:116 | the write seed is `0x37 << 1 = 0x6E` for a one-byte payload and `(0x37 << 1) ^ 0x51 = 0x3F` for any other length |
| DdcPacket.Header | pyddc/macos.py:111 | the header byte is `n + 1` with bit 7 set |
| DdcPacket.AppendFrame | pyddc/macos.py:110-114 | the frame is header, length and payload bytes; any element outside 0..255, or a payload over 254 bytes, is the ValueError (`None`), in both directions |
| DdcPacket.Seal | pyddc/macos.py:115-117 | appending a placeholder and overwriting it with the checksum gives the frame followed by the fold of the whole frame |
| DdcPacket.BuildPacket | pyddc/macos.py:109-117 | the packet is built exactly when the payload fits in bytes, and it is then the reference encoding `Encode` of the payload |
| DdcPacket.EncodeLayout | pyddc/macos.py:110-117 | an encoded packet has length `n + 3`; byte 0 is `n + 1` with bit 7 set, byte 1 is `n`, bytes 2..n+1 are the payload, and the last byte is the fold of all the bytes before it |
| DdcPacket.EncodedPacketValidates | pyddc/macos.py:116-117 | every encoded packet passes its own checksum test |
| DdcPacket.SingleByteChangeDetected | pyddc/macos.py:132 | changing any one byte of a packet whose checksum matches makes the checksum test fail |
| DdcPacket.Word | pyddc/macos.py:93-94 | `hi * 256 + lo` is below 65536 and splits back into `hi` and `lo` |
| DdcPacket.DecodeFeatureReply | pyddc/macos.py:93-95 | the current value comes from big-endian bytes 8-9 and the maximum from bytes 6-7, in that order |
| DdcPacket.DecodeRecoversWords | pyddc/macos.py:93-95 | a reply carrying `current` and `maximum` big-endian in those bytes decodes to exactly `(current, maximum)` |
| DdcExchange.Bus.WriteI2C | pyddc/macos.py:126 | one write is logged with addresses 0x37/0x51 and returns the channel's status for that write; the read log is unchanged |
| DdcExchange.Bus.ReadI2C | pyddc/macos.py:130 | one read of the 11-byte buffer is logged and returns the channel's status and bytes for that read |
| DdcExchange.WriteCycles | pyddc/macos.py:124 | `max(numOfWriteCycles, 1)`: at least 1, at least the argument, and one of the two |
| DdcExchange.WritesForIsProduct | pyddc/macos.py:122-126 | `a` attempts of `c` writes each make `a * c` writes |
| DdcExchange.Attempt | pyddc/macos.py:124-132 | an attempt that reads leaves an 11-byte reply, and one that does not leaves `[]` |
| DdcExchange.RunAttempt | pyddc/macos.py:124-132 | writes the packet `cycles` times, keeping the last write's status; when a reply is wanted, reads once and, on read status 0, replaces the flag with the reply's checksum test; equals `Attempt` and logs exactly those transactions |
| DdcExchange.RunFrom | pyddc/macos.py:121-139 | the attempts from `k` on, given the last attempt's flag and reply: it runs `Attempt` on each in turn and stops after the first success; it yields the flag, the reply and the attempts made |
| DdcExchange.Outcome | pyddc/macos.py:121-139 | the whole retry loop: `RunFrom` starting at attempt 0 with flag `False` and an empty reply, the values the Python locals hold before the loop |
| DdcExchange.RunFromShape | pyddc/macos.py:121-139 | a run from attempt `k` reports the last attempt it made; every earlier attempt failed, and it stops before the limit only on a success |
| DdcExchange.OutcomeShape | pyddc/macos.py:109-139 | zero attempts give `(False, [])`; otherwise the result is the flag and reply of the last attempt made, all earlier attempts failed, and a failure means every attempt was made |
| DdcExchange.FirstSuccessfulAttemptWins | pyddc/macos.py:133-135 | when attempt `k` is the first to succeed, the exchange returns that attempt's reply after exactly `k + 1` attempts |
| DdcExchange.AllAttemptsFail | pyddc/macos.py:136-139 | when every attempt fails, all are made and the last attempt's flag and reply are returned |
| DdcExchange.OnlyLastWriteCounts | pyddc/macos.py:124-126 | channels that agree on reads and on each attempt's last write give the same outcome, whatever the earlier writes returned |
| DdcExchange.RetryAttempts | pyddc/macos.py:121-139 | the retry loop returns `Outcome` and logs `cycles` writes and, when reading, one read per attempt made |
| DdcExchange.PerformDdcCommunication | pyddc/macos.py:100-139 | an unencodable payload raises before any transaction; otherwise the result is the outcome over the encoded packet with `max(W, 1)` writes per attempt, with the full write and read logs |
| DdcExchange.Read | pyddc/macos.py:77-97 | a one-byte request for `command`; `(current, max)` decoded from the reply exactly when the exchange succeeded, `None` otherwise, and the ValueError for a command that is not a byte |
| DdcExchange.ReadWithDefaults | pyddc/macos.py:77-90 | `read` with its default counts, two writes per attempt and four attempts: a byte command makes one to four attempts, each of two writes and one read, and all four when no reply validates |
| IoregEnumeration.ScanFrom | pyddc/macos.py:192-214 | the search never moves the iterator backwards or past the end; a result is the node just handed out, whose name it keeps |
| IoregEnumeration.RegistryIterator.Next | pyddc/macos.py:200-202 | `IOIteratorNext` hands out the next node's (never null) handle and advances, or returns the null handle at the end |
| IoregEnumeration.EntryName | pyddc/macos.py:203-205 | the status is `KERN_SUCCESS` exactly when the node's name is readable |
| IoregEnumeration.AnyInterestIn | pyddc/macos.py:207-208 | true exactly when some interest is a substring of the name |
| IoregEnumeration.NextObjectOfInterest | pyddc/macos.py:192-214 | the loop returns the first readable node after the iterator's position whose name contains an interest, with its handle and the handle before it; it stops at the end or at an unreadable name; it equals `ScanFrom`, result and iterator position |
| IoregEnumeration.VisitIgnoresPreceding | pyddc/macos.py:209-210 | a visit does not depend on the preceding handle |
| IoregEnumeration.ScanFold | pyddc/macos.py:198-212 | one search skips exactly the nodes the node-by-node walk leaves unvisited |
| IoregEnumeration.WithProxy | pyddc/macos.py:179-189 | `setIORegServiceDCPAVServiceProxy` on a record's value: the location number is kept; a non-empty `Location` replaces the location; only `"External"` attaches the proxy's entry as the channel |
| IoregEnumeration.Visit | pyddc/macos.py:241-247 | one loop body: a framebuffer node starts a new record numbered one past the count and makes it current; a proxy node fills in the current record with `WithProxy` and appends it; any other node leaves the state alone |
| IoregEnumeration.EnumerateFrom | pyddc/macos.py:237-247 | the loop from iterator position `pos`: search for the next node of interest, stop when there is none, otherwise `Visit` it with its own `Location` and go on from just past it |
| IoregEnumeration.EnumerateIsFold | pyddc/macos.py:237-247 | the search-driven loop equals the node-by-node reference walk |
| IoregEnumeration.EnumerateStep | pyddc/macos.py:238-247 | one loop turn: no object ends the walk, and an object is visited with its own node's `Location` |
| IoregEnumeration.VisitFramebuffer | pyddc/macos.py:241-244 | a framebuffer node creates a record whose location number is one past the previous count, and makes it current; nothing is appended |
| IoregEnumeration.VisitProxy | pyddc/macos.py:245-247 | a proxy node fills in the most recent record and appends that record |
| IoregEnumeration.VisitOther | pyddc/macos.py:241-247 | a node that matched an interest by substring but has neither exact name changes nothing |
| IoregEnumeration.EnumerateWellformed | pyddc/macos.py:224-247 | records are numbered 1, 2, … in creation order, the current record is the latest, and every appended element is a real record |
| IoregEnumeration.EnumerateChannelsExternal | pyddc/macos.py:185-189 | the walk attaches a channel only from a proxy node whose `Location` is `"External"` |
| IoregEnumeration.ListedChannelsExternal | pyddc/macos.py:185-189 | every listed record with a channel got it from an `"External"` proxy node |
| IoregEnumeration.SharedRecord | pyddc/macos.py:236-247 | a framebuffer followed by an `"External"` and then an `"Internal"` proxy lists one record twice, located `"Internal"` but keeping the first proxy's channel |
| IoregEnumeration.ServiceRecord.SetProxy | pyddc/macos.py:179-189 | a non-empty `Location` is stored; `"External"` also attaches the channel; anything else leaves the record as it was |
| IoregEnumeration.Absorb | pyddc/macos.py:241-247 | the loop body on one node of interest keeps the heap records in step with `Visit` |
| IoregEnumeration.Turn | pyddc/macos.py:238-247 | one search plus one loop body: the walk is over, or the iterator advanced and the remaining walk from the new state is unchanged |
| IoregEnumeration.MirrorsListed | pyddc/macos.py:237-248 | two list elements are the same record object exactly when the same framebuffer created them, and each holds that record's value |
| IoregEnumeration.GetServicesForMatching | pyddc/macos.py:217-251 | a failed iterator creation gives `[]`; otherwise the list holds the records of the walk in append order, and elements are the same object exactly when one record was appended twice |
| IoregEnumeration.WithChannel | pyddc/macos.py:256 | the comprehension `[d for d in displays if d.service is not None]` on the records' values: an order-preserving filter on the channel being present |
| IoregEnumeration.WithChannelKeeps | pyddc/macos.py:256 | the filter keeps exactly the records that have a channel, and never more than it was given |
| IoregEnumeration.DdcDisplays | pyddc/macos.py:256 | `ddc_displays` holds exactly the listed records with a channel, in order |
| VcpDummy.SetFailure | test/pyddc/vcp_dummy.py:38-56 | what `_set_vcp_feature` raises: OSError for an unsupported code and for a value outside a discrete code's list; ValueError above a continuous code's maximum; none when the value is stored |
| VcpDummy.SetValues | test/pyddc/vcp_dummy.py:45-52 | the shared table after a set: the value stored under the code when `SetFailure` is none, the table unchanged otherwise |
| VcpDummy.GetResult | test/pyddc/vcp_dummy.py:58-71 | what `_get_vcp_feature` returns: OSError for an unsupported code; otherwise the current value with the maximum for a continuous code and 0 for a discrete one, and KeyError where there is no entry |
| VcpDummy.SetAcceptance | test/pyddc/vcp_dummy.py:38-56 | a set is stored exactly for luminance ≤ 80, contrast ≤ 100, input in {27, 15, 17}, orientation in {1, 2, 4} |
| VcpDummy.SetFailureKinds | test/pyddc/vcp_dummy.py:41-56 | ValueError exactly for a continuous feature above its maximum; OSError for every other rejection; never KeyError |
| VcpDummy.FactoryResetAlwaysRejected | test/pyddc/vcp_dummy.py:10 | code 4 has an empty value list, so every set on it raises |
| VcpDummy.MaximumAccepted | test/pyddc/vcp_dummy.py:45-49 | a continuous feature accepts its maximum |
| VcpDummy.SetChangesOnlyItsCode | test/pyddc/vcp_dummy.py:49-52 | a successful set stores its value under its code, and every other code keeps its presence and value |
| VcpDummy.GetAfterSet | test/pyddc/vcp_dummy.py:49-71 | reading a code after a successful set of `v` on it returns `v` |
| VcpDummy.InitialValuesAcceptable | test/pyddc/vcp_dummy.py:9-18 | every initial current value is one the monitor would accept on a set |
| VcpDummy.SetKeepsValuesAcceptable | test/pyddc/vcp_dummy.py:38-56 | sets preserve the property that every stored value is acceptable |
| VcpDummy.FactoryResetUnreadable | test/pyddc/vcp_dummy.py:58-71 | with acceptable values, reading code 4 raises KeyError, since it never has a current value |
| VcpDummy.DummyVcp.SetVcpFeature | test/pyddc/vcp_dummy.py:38-56 | raises as `SetFailure` says, updates the shared table only on success, and logs the set |
| VcpDummy.DummyVcp.GetVcpFeature | test/pyddc/vcp_dummy.py:58-71 | the current value, with the maximum for a continuous feature and 0 for a discrete one; OSError for an unsupported code and KeyError for a missing value; nothing changes |
| VcpDummy.GetVcps | test/pyddc/vcp_dummy.py:77-79 | three distinct new handles, all on the same shared table |
| Vcp.DictGet | monitorboss/cli.py:40 | `d.get(k)` finds a value exactly when `k` is a key, and that value is stored under `k` |
| Session.PyIndex | monitorboss/impl.py:63-66 | Python list indexing over `length` items: defined exactly for `-length <= i < length`, with negative positions counted from the end |
| Session.MonitorIndexRange | monitorboss/impl.py:60-66 | with three monitors, exactly indices -3 to 2 name one, and -1 names the last |
| Session.GetError | monitorboss/impl.py:85-88 | the error a failed read reports: VCPError as "could not get" for the monitor, TypeError as "not readable", any other exception passed through |
| Session.SetError | monitorboss/impl.py:96-101 | the error a failed write reports: VCPError as "could not set" with the monitor and value, TypeError as "not writeable", ValueError as "above the max" with the value, any other exception passed through |
| Session.GetAttributeResult | monitorboss/impl.py:78-88 | `get_attribute`: "does not exist" for an invalid index, otherwise the dummy's reading or its failure mapped by `GetError` |
| Session.SetAttributeResult | monitorboss/impl.py:91-103 | `set_attribute`: "does not exist" for an invalid index, otherwise the requested value when the dummy stores it, or its failure mapped by `SetError` |
| Session.GetMonitor | monitorboss/impl.py:60-66 | a handle on the shared monitor exactly when the index is valid, and otherwise "monitor #mon does not exist" |
| Session.ListMonitors | monitorboss/impl.py:51-57 | the three handles `get_vcps` returns |
| Session.GetAttribute | monitorboss/impl.py:78-88 | the read of `com` on monitor `mon`: VCPError becomes "could not get", TypeError "not readable", other exceptions propagate; nothing changes and one read is logged on a valid monitor |
| Session.SetAttribute | monitorboss/impl.py:91-103 | the write: VCPError, TypeError and ValueError map to their three errors; success echoes `val`; one write is logged on a valid monitor |
| Session.SetAttributeEchoes | monitorboss/impl.py:103 | a successful set returns the requested value, and it succeeds exactly on a valid monitor with an accepted value |
| Session.AboveMaxReported | monitorboss/impl.py:100-101 | setting a continuous feature above its maximum is reported as "above the max" |
| Session.ToggleResult | monitorboss/impl.py:112-117 | `toggle_attribute`: the read's error if it fails; otherwise the write of `val2` when the value read is `val1` and of `val1` otherwise, giving the old and new values or the write's error, with the table after the write |
| Session.ToggleAttribute | monitorboss/impl.py:112-117 | equals `ToggleResult`; it reads first and then writes `val2` if it read `val1` and `val1` otherwise; a failed read issues no write |
| Session.ToggleWritesOtherValue | monitorboss/impl.py:112-117 | a failed read is reported and changes nothing; a success reports the value read and the value written, and stores the latter |
| Session.ToggleSameValues | monitorboss/impl.py:115 | with `val1 == val2` a toggle writes that value; on the initial table, toggling luminance "75 75" goes from 75 to 75 |
| Session.ToggleTwice | monitorboss/impl.py:114-117 | two toggles between accepted `a != b`, starting at `a`, report `a → b` and then `b → a`, and leave the table as it was |
| Cli.CheckFeature | monitorboss/cli.py:18-35 | `_check_feature`: a digit string is looked up as a VCP code, anything else as a feature alias; every failure is "not a valid feature" for that string, and an accepted digit string names a known command |
| Cli.FindCommand | monitorboss/cli.py:21-23 | a command with the code is found exactly when one exists, and it has that code |
| Cli.CheckFeatureByCode | monitorboss/cli.py:20-27 | a decimal code is accepted exactly when a known command has it, and resolves to that command |
| Cli.CheckFeatureByDigits | monitorboss/cli.py:20-27 | every digit string, leading zeros included, resolves to the command whose code is its decimal value; `"016"` and `"16"` are accepted together and then name the same command |
| Cli.CheckFeatureByAlias | monitorboss/cli.py:28-35 | a non-digit string is accepted exactly when it is a feature alias |
| Cli.CheckMon | monitorboss/cli.py:38-47 | `_check_mon`: a monitor alias gives its id, otherwise the text is read as an integer; every failure is "not a valid monitor" for that text |
| Cli.CheckMonResolves | monitorboss/cli.py:38-42 | an alias resolves to its id, and the text of an integer that is not an alias resolves to that integer |
| Cli.CheckMonFails | monitorboss/cli.py:41-47 | a monitor argument fails exactly when it is neither an alias nor an integer, with "not a valid monitor" |
| Cli.CheckVal | monitorboss/cli.py:53-119 | `_check_val`: per feature, configured names, parameter names or integers in the order the source tries them; every failure is "not a valid value" for that text, and the fall-through `None` comes exactly for a feature outside the five the source handles |
| Cli.CheckValInputPriority | monitorboss/cli.py:56-71 | for an input source, configured names win over parameter names, which win over integers; it fails exactly when all three fail |
| Cli.CheckValAnyInteger | monitorboss/cli.py:73-89 | contrast and luminance accept the text of every integer, with no range check |
| Cli.NamesOfMembers | monitorboss/cli.py:132-134 | the collected aliases are exactly the names mapped to the id |
| Cli.CollectAliases | monitorboss/cli.py:131-134 | the alias loop builds each such name followed by `", "`, in dictionary order |
| Cli.TrimAliases | monitorboss/cli.py:135-136 | the collected string is empty exactly when there are no aliases; otherwise dropping its last two characters gives the `", "`-join |
| Cli.MonitorLabel | monitorboss/cli.py:129-138 | the label the alias loop builds: `"monitor #N"` and, when aliases name N, `" ("`, the aliases joined by `", "`, and `")"` |
| Cli.MonitorStr | monitorboss/cli.py:129-138 | `_monitor_str` equals the label `"monitor #N"`, or `"monitor #N (a, b)"` when aliases exist |
| Cli.MonitorLabelShape | monitorboss/cli.py:129-138 | the label starts with `"monitor #N"` and ends in neither a space nor a comma |
| Cli.LastNameIsLast | monitorboss/cli.py:150-152 | the parameter loop keeps a name mapped to the value with no later name mapped to it, and finds none only when no name is |
| Cli.ValueLabel | monitorboss/cli.py:142-160 | the label of a value: its decimal text and, in parentheses, whichever of the parameter name and the input-source aliases are non-empty, with a bar between them when both are |
| Cli.ValueStr | monitorboss/cli.py:142-160 | `_value_str` on a command equals `ValueLabel`: `"V"`, then in parentheses the parameter name and the aliases separated by a bar, or whichever of the two exists |
| Cli.ValueLabelStartsWithValue | monitorboss/cli.py:143-160 | a value label starts with the value's decimal text, which reads back as the value |
| Cli.ValueLabelWithoutAliases | monitorboss/cli.py:153-159 | outside input sources no aliases are shown: the value, then its parameter name in parentheses if it has one |
| Cli.ValueLabelBothParts | monitorboss/cli.py:150-159 | an input source with both parts shows the parameter name, a bar, then the joined aliases |
| Cli.ValueStrShowsCode | monitorboss/cli.py:146-149 | as written, a bare code with no command renders as the code and drops the value: `_value_str(0x99, 5)` is `"153"` |
| Cli.ValueStrCorrectedShowsValue | monitorboss/cli.py:142-160 | corrected, every label starts with the value's text, and it agrees with the code whenever a command is found |
| Cli.Loop | monitorboss/cli.py:219-224 | the loop the multi-monitor commands share, over the first `n` monitors: one session call per monitor, a pause after each successful call but the last when paced, and the first error returned as the result with the events and state up to it |
| Cli.GetRun | monitorboss/cli.py:217-224 | `_get_attr`'s loop: `Loop` over `get_attribute`, paced |
| Cli.LoopStops | monitorboss/cli.py:219-224 | once a call has raised, later monitors change nothing |
| Cli.PacedShape | monitorboss/cli.py:223-224 | a paced run over `m` monitors has `2m - 1` events and starts and ends with a call |
| Cli.LoopPacing | monitorboss/cli.py:219-224 | a finished paced loop is calls with one pause between consecutive monitors and none after the last; a failing call is the last event |
| Cli.GetOne | monitorboss/cli.py:220-224 | one loop iteration of `_get_attr`: the read, then the pause unless it was the last monitor |
| Cli.GetAttr | monitorboss/cli.py:217-224 | `_get_attr`'s loop equals `GetRun`: its result, events, the current values and the requests |
| Cli.GetRunReadings | monitorboss/cli.py:219-222 | `_get_attr` succeeds exactly when every index is valid and the feature readable; it then reports one shared reading per monitor, with no maximum for a discrete feature |
| Cli.SetPass | monitorboss/cli.py:235-239 | one pass of `set_attribute` over the monitors: `Loop` over the set, paced or not |
| Cli.SetRun | monitorboss/cli.py:234-239 | `_set_attr`: the paced pass, then, if it finished, the unpaced pass of the list comprehension, whose results are reported; events and requests of both in order |
| Cli.SetOne | monitorboss/cli.py:236-238 | one iteration of a pass of sets: the set, then the pause when paced and not the last monitor |
| Cli.SetEach | monitorboss/cli.py:235-239 | one pass of `set_attribute` over the monitors equals `SetPass` |
| Cli.SetAttr | monitorboss/cli.py:234-239 | `_set_attr` after its checks equals `SetRun`: the paced pass, then the unpaced pass whose results are reported |
| Cli.SetPassSucceeds | monitorboss/cli.py:235-239 | a pass of sets succeeds exactly when every index is valid and the value is accepted |
| Cli.SetPassEffect | monitorboss/cli.py:235-239 | a successful pass echoes the value once per monitor, sends one set per monitor and leaves the feature at the value |
| Cli.SetRunSucceeds | monitorboss/cli.py:229-239 | `_set_attr` succeeds exactly when every index is valid and the value is accepted |
| Cli.SetRunSetsTwice | monitorboss/cli.py:235-239 | a successful `_set_attr` reports the value once per monitor but sends two identical sets per monitor |
| Cli.SetRunEvents | monitorboss/cli.py:235-239 | a successful `_set_attr` paces its first pass and runs the second back to back |
| Cli.TogRun | monitorboss/cli.py:250-254 | `_tog_attr`'s loop: `Loop` over `toggle_attribute`, paced |
| Cli.TogOne | monitorboss/cli.py:252-254 | one iteration of `_tog_attr`'s loop: the toggle, then the pause unless it was the last monitor |
| Cli.TogAttr | monitorboss/cli.py:250-254 | `_tog_attr`'s loop equals `TogRun` |
| Cli.ToggleBetween | monitorboss/cli.py:252 | on a valid monitor holding one of two accepted values, a toggle reports it and stores the other |
| Cli.AlternateParity | monitorboss/cli.py:251-254 | after `k` toggles from `a` the value is `a` for even `k` and `b` for odd `k` |
| Cli.TogRunAlternates | monitorboss/cli.py:250-254 | all monitors share one value, so toggling over `n` monitors toggles it `n` times; the `k`-th reports `Alternate(k) → Alternate(k+1)`, and the feature ends at `Alternate(n)` |

## Left out

- IOKit and PyObjC: `getIORegServiceAppleCDC2Properties` (`pyddc/macos.py:142-176`) reads EDID,
  path, display and transport properties through foreign calls. A framebuffer's record here
  carries only its location number.
- The `IOAVService` object made from a proxy's entry (`pyddc/macos.py:188-189`) is represented
  by that entry's handle. `IOAVServiceCreateWithService` is taken never to return null, so an
  `"External"` proxy always attaches a channel, and `DdcDisplays` never drops a record because
  its channel could not be created (`pyddc/macos.py:256`).
- The sleep-time defaults of `read` and `performDDCCommunication` (`pyddc/macos.py:79-83,
  100-102`) go with the sleeps. `PerformDdcCommunication` and `Read` take the write and attempt
  counts from the caller; `ReadWithDefaults` supplies 2 and 4 as `read` does.
- `IORegistryGetRootEntry` and `IORegistryEntryCreateIterator` become a status parameter and a
  `RegistryIterator` over the node list. The `IOObjectRelease` calls in the `finally` clause are
  not modelled.
- The import-time probe of real displays (`pyddc/macos.py:254-255`) and the `features` table are
  not modelled. `ddc_displays` is modelled as a filter over a given list.
- Every `time.sleep` in the exchange (`pyddc/macos.py:125, 129, 136`) is absent: timing has no
  effect on the result. In the command-line loops a sleep is a `Sleep` event, and its duration is
  not modelled.
- `print` calls and the result-printing loops of `_get_attr`, `_set_attr` and `_tog_attr`
  (`monitorboss/cli.py:225-226, 240-241, 255-256`) are I/O, as are the logging calls.
- The `assert ioavservice is not None` check (`pyddc/macos.py:107`): a `Bus` reference is never
  null.
- The monitor library's public `get_vcp_feature`/`set_vcp_feature` wrappers, the context manager
  and the timeouts are not part of this model. The session calls the simulated monitor's
  `_get_vcp_feature`/`_set_vcp_feature` directly, and exceptions that `impl.py` does not catch
  propagate as `Unhandled`.
- `list_monitors`' VCPError branch is not modelled: it happens only on Windows, and the simulated
  monitor never raises it.
- The `Feature` table of `impl.py` and `get_vcp_com`/`VCPCodes` are not part of this model. The
  session takes the command descriptor directly, and the known commands are a `registry`
  parameter. An alias whose code has no command resolves to `Success(None)`, standing for
  `get_vcp_com` returning `None`.
- The command-line loops take the already-checked command, monitor list and values. The checks
  themselves are modelled separately as `CheckFeature`, `CheckMon` and `CheckVal`.
- `_check_val` on a code outside its `match` falls through and returns `None` (`Success(None)`).
- Python's `int()` grammar: `ParseInt` accepts an optional sign and ASCII digits only, with no
  surrounding whitespace, underscores or non-ASCII digits. `str.isdigit` is likewise ASCII only.
- Error messages are modelled by the error kind and the values they mention, not by their text.
- `_feature_str`, `_get_caps`, `_list_mons`, `get_vcp_capabilities`, `signal_monitor`, argparse
  and `run` are outside the modelled core.
- Cli.NamesOf: its own contract gives only the length bound; membership is stated by
  `NamesOfMembers`.

## Findings

| source | as written | input that shows it | evidently intended | confidence | as-written member | corrected member |
|---|---|---|---|---|---|---|
| monitorboss/cli.py:146-149 | an integer feature code with no known command is returned as `str(com)`, the code, and the value is dropped | `_value_str(0x99, 5, cfg)` with no command for 0x99 gives `"153"` | the value's own text, `"5"`, with no names | not executed; medium (the shown callers pass only known commands) | Cli.ValueStrAsWritten, Cli.ValueStrShowsCode | Cli.ValueStrCorrected, Cli.ValueStrCorrectedShowsValue |
