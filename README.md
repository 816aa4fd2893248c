# catbus-lgtv, modelled in Dafny

catbus-lgtv connects an LG WebOS TV to a home-automation message bus.
This project models the core of that program and proves properties of the model.

- **The TV client** (`lgtv/`). It opens one WebSocket per connection.
  - It numbers every request from a per-connection `sequence` counter.
  - It keeps a table (`responseChannels`) from request ID to the channel of the caller waiting for the answer.
  - A read loop routes each inbound response to the slot with the same ID and drops the rest.
  - When reading fails, the read loop closes every slot.
  - On this correlator sit the protocol calls: ListApps, App, SetApp, Volume, SetVolume and TurnOff; the subscriptions; and Register, the pairing handshake that may issue a new client key.
- **The Wake-on-LAN packet** (`wol/`): six `0xFF` bytes, then the MAC address sixteen times.
- **The bridge** (`cmd/catbus-bridge-lgtv/main.go`). It turns bus messages into TV calls:
  - clamps a volume to [0, 100];
  - maps an app name to an app ID;
  - turns the TV off on "off" while connected;
  - publishes the sorted app-name list;
  - names the app the TV reports;
  - reconnects forever, carrying the pairing key from one connection to the next.

## Modules

| module | models |
|---|---|
| `Wrappers` | `Option` and `Result` |
| `Api` | `lgtv/api.go` |
| `Messages` | `lgtv/messages.go` |
| `Correlation` | the pure half of `lgtv/client.go` |
| `Pairing` | the decision of `lgtv/register.go` |
| `Methods` | request construction, result extraction and the subscription loop of `lgtv/methods.go` |
| `MapRange` | Go's map iteration order |
| `Lgtv` | class `Client`: the state of `lgtv/client.go` and the stateful calls |
| `Wol` | `wol/wol.go` |
| `Decimal` | `strconv.Atoi` and `%v` of an int |
| `Strings` | Go's string order, sorting, `strings.Join` and `strings.Split` |
| `Bridge` | the bridge's rules and its reconnect loop |

### How the concurrency is modelled

- **Channels.** Each request's channel is a `Slot`: a queue of delivered responses and a closed flag.
- **Locked sections.** Each section the client runs under its lock is one method of `Lgtv.Client`.
- **Deadlines.** A context deadline is a boolean outcome of a receive (`Wait.TimedOut`).
- **JSON.** Payloads are records that have already been decoded (`Payload`): an absent payload, one that does not decode, or an object with optional fields. A missing field reads as Go's zero value. `Object` stands for any payload the decoder accepts, JSON `null` included, which decodes to zero values. A member of the wrong type counts as a payload that does not decode (`Malformed`). The model's `volume` is an unbounded integer, whereas Go rejects values outside int64.
- **Map order.** Go visits a map in an order the runtime picks. The methods that iterate a map take that order as a parameter, constrained by `MapRange.IterationOrder`.
- **Durations.** `time.Duration` is an int64. The product in `pingPeriod` wraps modulo 2^64, and Go's division truncates toward zero.

### Notes on the code

- **Teardown.** Teardown only closes the pending channels; it does not remove them from the table (`lgtv/client.go:68-74`). The second finding below comes from this.
- **Failed pairing.** A failed Register is only logged; the connection is kept (`cmd/catbus-bridge-lgtv/main.go:103-105`).
- **Missing client methods.** `main.go` uses a `Client` with `Connect`, `Err`, `IsConnected` and `SetAppHandler` (`lgtv/api.go:12-47`). The `client` in `lgtv/client.go` implements none of these. It is opened by `Dial`, and its subscriptions take their callback directly. The bridge is therefore modelled on what `client.go` and `methods.go` do.
- **Ping period.** The comment at `lgtv/api.go:78` requires the ping period to be less than `PongTimeout`. The period as written meets that for every positive timeout (`Api.PingPeriodBelow`). Above MaxInt64/9, however, the product by 9 wraps, and the period is no longer nine tenths of the timeout; the first finding below is about those timeouts.

## Model

| member | source | states |
|---|---|---|
| Api.Quo | lgtv/api.go:80 | Go's division of an int64: the quotient truncates toward zero, so the product with the divisor lies between zero and the dividend, less than one divisor away from it |
| Api.PingPeriod | lgtv/api.go:79-81 | the period as written equals the truncated 9/10 of the timeout for every timeout, negative ones included, whose product by 9 fits in int64 |
| Api.SafePingPeriod | lgtv/api.go:78-81 | the corrected period is the truncated 9/10 of the timeout for every int64 timeout (see Findings) |
| Api.Wrap64 | lgtv/api.go:79-81 | int64 arithmetic: the wrapped value is in range, agrees with the exact value modulo 2^64, and equals it when no overflow occurs |
| Api.Error.Text | lgtv/api.go:83-85 | a TVError's text is exactly the message it was built with |
| Api.PingPeriodExact | lgtv/api.go:78-81 | for every timeout from 0 up to MaxInt64/9 (where the product by 9 fits in int64), the period is the truncated 9/10 of the timeout, is non-negative, and is strictly below the timeout once the timeout is at least 1 |
| Api.PingPeriodMonotone | lgtv/api.go:79-81 | on that range, a longer timeout never gives a shorter period |
| Api.DefaultPingPeriod | lgtv/api.go:71-81 | the default timeout is 10 s and its period is 9 s |
| Api.PingPeriodBelow | lgtv/api.go:78-81 | for every positive timeout, wrap-around or not, the period as written is below the timeout, as the comment at line 78 requires |
| Api.PingPeriodWrapsPositive | lgtv/api.go:79-81 | as written, a 2.1e18 ns timeout wraps to a positive period of 45325592629044838 ns (about 1.4 years), under a fortieth of the corrected period |
| Api.PingPeriodOverflows | lgtv/api.go:79-81 | as written, a 1.1e18 ns timeout wraps to a negative period |
| Api.SafePingPeriodExact | lgtv/api.go:78-81 | the corrected period is exactly Quo(9 × timeout, 10) for every int64 timeout, lies in [0, timeout) for every positive timeout, is at least 1 ns from a 2 ns timeout on (a 1 ns timeout still gives 0), and equals the source's value wherever the source's product does not wrap |
| Messages.Capability.Uri | lgtv/messages.go:39-44 | every capability URI starts with the `ssap://` scheme |
| Messages.Err | lgtv/messages.go:47-52 | there is an error exactly when the response type is "error", and then it is a TVError carrying exactly the response's error field |
| Messages.Members | lgtv/messages.go:15-20 | a serialised request has id and type first, has a uri member iff the URI is non-empty, and has a payload member iff there is a payload |
| Messages.DecodeApps | lgtv/messages.go:55-58 | listAppsResponse decodes exactly from an object payload; its apps are the "apps" member, or none when it is missing |
| Messages.DecodeApp | lgtv/messages.go:59-61 | getAppResponse decodes exactly from an object payload into an app whose ID is the "appId" member (empty when missing) and whose name is empty |
| Messages.DecodeVolume | lgtv/api.go:58-61 | a Volume decodes exactly from an object payload, with the "volume" and "muted" members, zero when missing |
| Messages.DecodeClientKey | lgtv/register.go:17-19 | registerResponse decodes exactly from an object payload; its key is the "client-key" member, empty when missing |
| Messages.RequestTypeNamesDistinct | lgtv/messages.go:31-34 | the three request types have three different wire names |
| Messages.UrisDistinct | lgtv/messages.go:39-44 | the six capability URIs are pairwise distinct |
| Correlation.Take | lgtv/client.go:135-141 | a receive times out exactly on the deadline, otherwise yields the head of the queue when there is one, and reports the closed channel only when the slot is closed and empty |
| Correlation.Rest | lgtv/client.go:137 | a receive takes only the received response off the front of the queue; the closed flag never changes, and a deadline or closed outcome leaves the slot as it was |
| Correlation.Outcome | lgtv/client.go:135-141 | receive's result: a delivered response fails exactly when its type is "error", with its error text, and otherwise is returned unchanged; a deadline gives the context error; a closed channel gives the not-connected error (corrected, see Findings) |
| Correlation.ReceiveAsWritten | lgtv/client.go:135-138 | as written, receive dereferences a nil response exactly when the channel was closed, and otherwise agrees with the corrected receive |
| Correlation.Arrive | lgtv/client.go:76-85 | a reply from the TV reaches the caller as a response carrying the caller's own ID; a deadline reaches it as a deadline |
| Correlation.Addressed | lgtv/client.go:82-85 | the responses routed to one ID all carry that ID and come from the inbound stream |
| Correlation.Deliver | lgtv/client.go:81-86 | one response is appended to the slot of its own ID and no other; an unknown ID changes nothing; no slot is added or removed |
| Correlation.Route | lgtv/client.go:75-87 | routing a stream keeps the table's set of IDs |
| Correlation.CloseAll | lgtv/client.go:68-74 | teardown closes every slot, keeps every queue, and removes none |
| Correlation.RouteAddressed | lgtv/client.go:75-87 | after a stream is routed, each slot holds its old queue followed by exactly the responses that carry its ID, in arrival order |
| Correlation.AddressedNone | lgtv/client.go:82-85 | an ID that no inbound response carries receives nothing |
| Correlation.AddressedDistinct | lgtv/client.go:82-85 | when IDs are distinct, the k-th response is the only one routed to its ID |
| Correlation.OwnResponse | lgtv/client.go:82-85 | with distinct IDs, each caller gets exactly its own response, whatever the arrival order |
| Correlation.PendingReceiveAfterTeardown | lgtv/client.go:135-138 | a caller still waiting when the read loop closes its slot hits the nil dereference as written, and gets the not-connected error in the corrected model |
| Pairing.RegisterRequest | lgtv/register.go:23-63 | the registration request has type "register", no uri member, the PROMPT pairing type, exactly the fixed 22-entry permission manifest of lines 23-46, and the caller's key |
| Pairing.RegisterOutcome | lgtv/register.go:66-82 | an error always comes with the original key; "registered" returns the original key with no error; a different key can only be the client-key of a second response on the same ID, after a first response that neither failed nor said "registered" |
| Pairing.FirstFails | lgtv/register.go:66-69 | a first receive that times out or carries an "error" response returns the original key with that error |
| Pairing.SecondFails | lgtv/register.go:74-77 | after a prompt, a failed second receive returns the original key with its error |
| Pairing.SecondUndecodable | lgtv/register.go:78-81 | after a prompt, an undecodable second payload returns the original key with a decode error |
| Pairing.PromptApproved | lgtv/register.go:78-82 | after an approved prompt the key returned is the second payload's client-key, with no error |
| Methods.OneShot | lgtv/methods.go:17-21 | a one-shot request has the given ID, type "request", its capability's URI and the given payload, serialised as id, type, uri |
| Methods.SubscribeTo | lgtv/methods.go:60-64 | a subscription request has type "subscribe", the capability's URI and no payload |
| Methods.Extract | lgtv/methods.go:24-33 | a failed receive passes its error through; a non-error response whose payload decodes returns exactly the decoded value, and one whose payload does not decode returns a decode error; a success always comes from such a response |
| Methods.ListAppsResult | lgtv/methods.go:24-33 | ListApps returns the receive's error, a decode error for a payload that is not an object, or exactly the payload's apps list |
| Methods.AppResult | lgtv/methods.go:46-55 | App returns the receive's error, a decode error for a payload that is not an object, or an app carrying only the payload's appId |
| Methods.VolumeResult | lgtv/methods.go:114-123 | Volume returns the receive's error, a decode error for a payload that is not an object, or the payload's volume level and mute flag (zero when missing) |
| Methods.AckResult | lgtv/methods.go:99-100 | SetApp, SetVolume and TurnOff return no error exactly when the receive succeeded, and otherwise return its error |
| Methods.ListAppsReturnsApps | lgtv/methods.go:29-33 | ListApps returns exactly the payload's apps list |
| Methods.AppHasOnlyId | lgtv/methods.go:50-55 | App returns an app whose ID is the payload's appId and whose name is empty |
| Methods.Event | lgtv/methods.go:68-82 | one response gives at most one callback |
| Methods.Forwarded | lgtv/methods.go:68-82 | a subscription makes no more callbacks than responses |
| Methods.Forward | lgtv/methods.go:68-82 | the subscription loop dispatches exactly the callbacks of the specification `Forwarded` |
| Methods.ForwardedAppend | lgtv/methods.go:136-149 | the dispatches for a stream split anywhere are the dispatches of the two parts, in order |
| Methods.Skipped | lgtv/methods.go:68-79 | an error response or an undecodable payload is skipped and does not end the loop: the callbacks before and after it are unchanged |
| Methods.Dispatched | lgtv/methods.go:75-81 | any other response yields exactly one callback, with its decoded payload, in place |
| Methods.SubscriptionEvents | lgtv/methods.go:68-82 | after the read loop has routed the inbound stream, a subscription's callbacks are those of its already queued responses followed by one per later response carrying its ID (errors and undecodable payloads skipped), in arrival order |
| Lgtv.ReadError | lgtv/client.go:78 | the error the read loop reports is the fixed prefix followed by the read failure's text |
| Lgtv.Client.Dial | lgtv/client.go:43-52 | a new client has sequence 0, an empty table, nothing sent and no failure; its writer gets the ping period as the source computes it, wrap-around included |
| Lgtv.Client.NewRequest | lgtv/client.go:115-123 | the ID is the old sequence, the sequence grows by exactly one, the ID is above every registered ID, and the table gains a fresh slot for it with every other entry unchanged |
| Lgtv.Client.Cancel | lgtv/client.go:125-131 | cancel removes exactly its own ID; on a slot teardown already closed (a double close, which panics in the source) it reports failure and changes nothing |
| Lgtv.Client.Send | lgtv/client.go:96-97 | on a live connection, the request is appended to what the writer has written; nothing else changes |
| Lgtv.Client.Dispatch | lgtv/client.go:81-86 | the locked section of the read loop delivers one response by `Deliver` and keeps the invariant |
| Lgtv.Client.Teardown | lgtv/client.go:68-79 | the read error is recorded, and every registered slot is closed and none removed, whatever the map's iteration order |
| Lgtv.Client.ReadLoop | lgtv/client.go:66-88 | after a stream and a read failure, every slot holds exactly the responses with its ID, in order, and is closed; no slot is added or removed |
| Lgtv.Client.Receive | lgtv/client.go:135-141 | a receive yields `Take` of the slot and removes only a received response from it |
| Lgtv.Client.Exchange | lgtv/methods.go:14-24 | a one-shot call uses one fresh ID, writes one request, receives the reply under that ID, and leaves the table as it found it |
| Lgtv.Client.ListApps | lgtv/methods.go:13-34 | ListApps writes the listApps request under a fresh ID, returns the apps of the reply, and cancels its slot |
| Lgtv.Client.App | lgtv/methods.go:35-56 | App writes the getForegroundAppInfo request and returns the reply's app ID |
| Lgtv.Client.SetApp | lgtv/methods.go:85-101 | SetApp writes the launch request with payload {id: appID} and returns only the reply's error |
| Lgtv.Client.Volume | lgtv/methods.go:103-124 | Volume writes the getVolume request and returns the decoded volume |
| Lgtv.Client.SetVolume | lgtv/methods.go:152-166 | SetVolume writes {volume: level} with the level unchanged (no clamping) and returns only the reply's error |
| Lgtv.Client.TurnOff | lgtv/methods.go:168-181 | TurnOff writes the turnOff request and returns only the reply's error |
| Lgtv.Client.Register | lgtv/register.go:49-83 | Register writes the registration request, returns `RegisterOutcome` of the one or two receives on its ID, and cancels its slot on every path |
| Lgtv.Client.Subscribe | lgtv/methods.go:57-65 | on a live connection, a subscription writes a subscribe request under a fresh ID and never cancels it, so the ID stays registered |
| Wol.MagicPacket | wol/wol.go:40-47 | the packet is the six-byte header followed by 16 × len(mac) more bytes |
| Wol.HexDecodeLength | wol/wol_test.go:36 | hex.DecodeString, modelled by Wol.HexDecode: a decoded text is twice as long as its bytes, and a text of odd length is an error |
| Wol.HexDecodeAppend | wol/wol_test.go:36 | decoding two hex texts one after the other decodes their concatenation |
| Wol.DecodeCopies | wol/wol_test.go:21-22 | the hex text of an address written n times decodes to the address repeated n times |
| Wol.Repeat | wol/wol.go:43-45 | writing the address n times gives n × its length bytes |
| Wol.Packet | wol/wol.go:40-47 | the buffer-building loop produces exactly the Magic Packet: the header, then the address sixteen times |
| Wol.RepeatBlock | wol/wol.go:43-45 | the k-th block of the repetition is the address |
| Wol.PacketLayout | wol/wol.go:40-47 | the packet is 6 + 16 × len(mac) bytes, its first six bytes are 0xFF, and each of its sixteen blocks after them is the address |
| Wol.PacketLength | wol/wol.go:40-47 | a 6-byte address gives a 102-byte packet |
| Wol.TestVector | wol/wol_test.go:19-22 | the hex test vector decodes to the packet of a8:23:22:ad:be:c7 |
| Wol.PacketCase | wol/wol_test.go:25-45 | one test case as written: it stops at line 28 exactly when the MAC does not parse, at line 38 exactly when the text is not hex, never at the length check's line 33 whatever the inputs, and otherwise reports exactly when the decoded text differs from the packet; the test's own vector, 204 characters long, passes |
| Wol.PacketTextLength | wol/wol_test.go:31 | the hex text of any packet for a 6-byte address is 204 characters, so the length compared at line 31 is never 102 for a correct vector |
| Wol.DecodedLength | wol/wol_test.go:36-41 | the decoded test vector is the 102 bytes the check meant to require |
| Decimal.Atoi | cmd/catbus-bridge-lgtv/main.go:123 | an accepted payload is an optional '+' or '-' followed by one or more digits, and its value fits in int64 |
| Decimal.AtoiAccepts | cmd/catbus-bridge-lgtv/main.go:123 | every optional sign followed by one or more digits is read as the signed value of the digits, and accepted exactly when that value fits in int64 |
| Decimal.Digits | cmd/catbus-bridge-lgtv/main.go:87 | the digits of n are non-empty decimal digits without a leading zero whose value is n |
| Decimal.Format | cmd/catbus-bridge-lgtv/main.go:87 | the text is non-empty and starts with '-' exactly for negative numbers |
| Decimal.AtoiFormat | cmd/catbus-bridge-lgtv/main.go:87 | Atoi reads back every int64 that `%v` wrote |
| Strings.LessIrreflexive | cmd/catbus-bridge-lgtv/main.go:60 | no string sorts before itself |
| Strings.LessAsymmetric | cmd/catbus-bridge-lgtv/main.go:60 | two strings never sort before each other |
| Strings.LessTransitive | cmd/catbus-bridge-lgtv/main.go:60 | the string order is transitive |
| Strings.LessTotal | cmd/catbus-bridge-lgtv/main.go:60 | of two different strings, one sorts first |
| Strings.Insert | cmd/catbus-bridge-lgtv/main.go:60 | inserting into a sorted list keeps it sorted and adds exactly that string |
| Strings.Sort | cmd/catbus-bridge-lgtv/main.go:60 | sorting gives an ascending permutation of its input |
| Strings.SortedDistinct | cmd/catbus-bridge-lgtv/main.go:56-60 | a sorted list without repeats is strictly ascending |
| Strings.StrictlySortedUnique | cmd/catbus-bridge-lgtv/main.go:56-60 | two strictly ascending lists with the same elements are equal |
| Strings.Join | cmd/catbus-bridge-lgtv/main.go:61 | no parts join to the empty text, one part to itself, and more start with the first part and the separator |
| Strings.Split | cmd/catbus-bridge-lgtv/main.go:61 | splitting always yields at least one piece |
| Strings.SplitJoin | cmd/catbus-bridge-lgtv/main.go:61 | for at least one name, splitting the newline-joined names gives back the names when none contains a newline |
| Strings.SplitJoinAll | cmd/catbus-bridge-lgtv/main.go:61 | the same round trip for every list: no names join to the empty string, which splits into one empty name |
| Bridge.Clamp | cmd/catbus-bridge-lgtv/main.go:127-132 | the level is always in [0, 100]: below 0 becomes 0, above 100 becomes 100, and anything within is unchanged |
| Bridge.SetVolume | cmd/catbus-bridge-lgtv/main.go:121-133 | the handler's step-by-step reassignment calls the TV with the clamped value, and calls it exactly when the payload is an integer |
| Bridge.VolumeCall | cmd/catbus-bridge-lgtv/main.go:121-133 | a payload leads to a call exactly when Atoi accepts it, with its clamped value in [0, 100] |
| Bridge.VolumeEcho | cmd/catbus-bridge-lgtv/main.go:86-90 | a volume the bridge publishes sets, when read back, its clamped value, which is the same value when it is in range |
| Bridge.StrictVolumeCall | cmd/mqtt-lgtv-bridge/mqtt-lgtv-bridge.go:52-63 | the MQTT variant calls exactly for an integer within [0, 100], with that integer |
| Bridge.StrictAgrees | cmd/mqtt-lgtv-bridge/mqtt-lgtv-bridge.go:52-63 | the MQTT variant, which refuses instead of clamping, agrees with the bridge wherever it accepts, and differs exactly on integers outside [0, 100] |
| Bridge.AppCall | cmd/catbus-bridge-lgtv/main.go:140-146 | an app is launched exactly when the payload is a configured name, and it is that name's configured ID |
| Bridge.TurnsOff | cmd/catbus-bridge-lgtv/main.go:154-167 | the TV is turned off exactly when the payload is "off" and the TV is connected |
| Bridge.PublishedName | cmd/catbus-bridge-lgtv/main.go:78-81 | the published name is the configured name when the lookup finds one, and the raw app ID otherwise |
| Bridge.AppEcho | cmd/catbus-bridge-lgtv/main.go:77-85 | a published app name launches, when read back, the same app; the raw ID is published when no name maps to it, and if it is not itself a name it launches nothing |
| Bridge.AppValues | cmd/catbus-bridge-lgtv/main.go:56-61 | the published list is the app names, collected in map order, sorted and joined by "\n" |
| Bridge.AppValuesDeterministic | cmd/catbus-bridge-lgtv/main.go:56-61 | the list does not depend on the map's iteration order, names each configured app exactly once in strictly ascending order, and, for at least one name, splits back into the names; with no apps configured it is the empty string, which splits into one empty name |
| Bridge.DistinctSorted | cmd/catbus-bridge-lgtv/main.go:56-60 | sorting the map's keys leaves them strictly ascending |
| Bridge.ConnectUntilUp | cmd/catbus-bridge-lgtv/main.go:97-102 | Connect is retried after every failure and the loop stops at the first success |
| Bridge.KeyAfter | cmd/catbus-bridge-lgtv/main.go:93-105 | a pass whose first registration receive fails keeps the key held before it |
| Bridge.Supervise | cmd/catbus-bridge-lgtv/main.go:93-105 | the key held after every pass is the key Register returned, by `KeyAfter` |
| Bridge.KeyProvenance | cmd/catbus-bridge-lgtv/main.go:103 | the held key is the configured key or a client-key the TV sent after a prompt |
| Bridge.KeyKept | cmd/catbus-bridge-lgtv/main.go:93-105 | when every registration fails at once or is already accepted, the configured key is kept throughout |

## Left out

- The WebSocket transport is network I/O and is not modelled: dialling, `ReadJSON` and `WriteJSON`, the ping ticker and the pong handler's read deadline (`lgtv/client.go:35-41`, `lgtv/client.go:89-113`). Only the ping period's arithmetic is kept.
- Goroutines, the mutex, blocking on channels and `context` deadlines are concurrency. Each locked section is one atomic method, and a deadline is a boolean outcome.
- The read loop's unbuffered send under the lock (`lgtv/client.go:84`) blocks whenever nobody receives on the channel. That happens for a reply to a caller that has timed out and stopped reading. It also happens for a second or late reply to an ID whose caller has already taken its one reply and has not yet cancelled. This deadlock is a matter of concurrency and is not modelled; the model queues such replies in the slot.
- `encoding/json` is a library. Payloads are decoded records, and a failure to decode is one abstract error.
- `wol.Wake`'s UDP broadcast is socket I/O.
- `config.Load`, `mqtt/mqtt.go` and the catbus client are thin wrappers over third-party libraries (Paho MQTT, catbus), which are not part of this model.
- `cfg.AppNameForID` is not in `config/config.go`. Its answer is a parameter constrained by `Bridge.NameLookup`.
- The one-shot tools (`set-volume`, `list-apps`, `set-app`, `turn-off`, `follow-volume`, `generate-key`, `wake-tv`) only parse flags, register where they talk to the TV, and call one method (`follow-volume` subscribes to the volume; `wake-tv` sends one Magic Packet) before printing the result. The observer (`cmd/catbus-observer-lgtv`), the two actuators (`cmd/catbus-actuator-lgtv`, `cmd/catbus-lgtv-actuator`) and the second bridge (`cmd/catbus-bridge-lgtv/mqtt-lgtv-bridge.go`) have reconnect loops, subscriptions and publishing of their own. They are variants of the modelled bridge and are not modelled. Of the MQTT bridge (`cmd/mqtt-lgtv-bridge`), only its one distinct rule is kept (`Bridge.StrictVolumeCall`).
- Logging is left out.
- Lgtv.Client.ListApps, App, SetApp, Volume, SetVolume, TurnOff, Register, Subscribe, Send: these require that the connection has not failed. After teardown the writer has closed the request channel (`lgtv/client.go:92`), and the source's send on it panics. The model does not represent that panic.
- Lgtv.Client.Dial: the writer is handed the period as written (`Api.PingPeriod`), which is wrong for a timeout above MaxInt64/9. For some such timeouts it is negative (1.1e18 ns), and `time.NewTicker` panics on it (`lgtv/client.go:90`). For others it is positive but far shorter than nine tenths of the timeout (2.1e18 ns gives about 1.4 years, `Api.PingPeriodWrapsPositive`). The model does not represent the panic.
- Lgtv.Client.NewRequest: request IDs are Go ints (64 bits, `lgtv/client.go:22`), and `c.sequence++` wraps after 2^63 requests. The model's counter is unbounded, so its IDs never repeat; the wrap-around is not modelled.
- Bridge.Supervise: the source's outer loop never ends. The model runs it over a finite list of passes. Each pass is assumed to contain a successful Connect, because a TV that never answers keeps the source retrying forever. The subscriptions and the wait for a connection error inside each pass are not modelled.
- The context passed to Register at `cmd/catbus-bridge-lgtv/main.go:103` is the first attempt's, which may already have expired after retries. The clock is not modelled.
- Api.PingPeriodExact, Api.PingPeriodMonotone: stated only for timeouts up to MaxInt64/9. Beyond that the source's product wraps. The period is then no longer nine tenths of the timeout and is no longer monotone (1.1e18 ns gives a negative period), though it stays below the timeout (`Api.PingPeriodBelow`; see Findings).
- Strings.Sort: Go's sort algorithm is not modelled, only its result. For strings this result is unique.
- Go compares strings by their UTF-8 bytes, and the model compares characters. The two orders agree because UTF-8 preserves code point order.
- Decimal.Atoi: a syntax error and a range error are both `None`, because the bridge only checks for an error. `int` is taken to be 64 bits.
- Methods.Forward: the source starts each callback in its own goroutine (`go f(app)`), so callbacks may run out of order. The model gives the order in which they are started.
- Wol.TestVector: the 204-character hex text is written as seventeen concatenated pieces of the same text. Applying the decoder to one long literal is beyond what the verifier can do cheaply.
- The reusable client described by the `Client` interface (`NewClient`, `Connect`, `Err`, `IsConnected`, the handler setters) has no implementation in the source and is not modelled.

## Findings

| source | as written | input that shows it | evidently intended | confidence | as-written member | corrected member |
|---|---|---|---|---|---|---|
| lgtv/api.go:79-81 | `(o.PongTimeout * 9) / 10` multiplies in int64 before dividing | PongTimeout = 1.1e18 ns (about 35 years) gives a period of -854674407370955161 ns, and `time.NewTicker` panics on a non-positive period | a period of 9/10 of any positive timeout, below the timeout, as the comment at line 78 requires; the corrected period is positive from a 2 ns timeout on, and a 1 ns timeout still gives 0, on which `time.NewTicker` panics as well | low (absurd timeout), not executed | Api.PingPeriodOverflows | Api.SafePingPeriodExact |
| lgtv/client.go:135-138 | teardown (lines 68-74) closes every pending channel without removing it; a waiting `receive` then gets a nil `*response` and calls `rsp.Err()` on it; the caller's deferred `cancel` then closes the channel a second time (line 129) | a call is waiting for its reply when the read from the socket fails | the waiting call returns a not-connected error, and its cancel does not close again | medium, not executed | Correlation.PendingReceiveAfterTeardown | Correlation.Outcome |
| wol/wol_test.go:31-35 | the length check compares the hex text, not the decoded packet, with 102, and fails only if `err != nil`, which is nil at that point | the vector in the test itself: its hex text is 204 characters long, and `err` is nil after a successful `ParseMAC` | check that the decoded packet is 102 bytes long | high, not executed | Wol.PacketCase | Wol.DecodedLength |
