# Minecraft shop delivery core, modelled in Dafny

The shop sells in-game items for a Minecraft network. Once an order is paid,
the **rcon-delivery** edge function does the following:

- It reads the product's enabled delivery commands in `order_index` order.
- It picks the candidate RCON servers: the servers assigned to the product,
  or else every server, in both cases enabled and of the product's game
  mode, in ascending priority.
- It fills the recipient, the quantity and the product name into each
  command.
- It tries the candidates one after another. On a candidate it sends every
  command over the Source RCON protocol. It stops at the first candidate
  that accepts them all.
- Every command sent is logged to `delivery_logs`.
- If no candidate succeeds and the recipient is offline, the order is
  upserted into `delivery_queue` and marked queued. Otherwise the order
  becomes delivered or failed and keeps the log.

When a game server reports that a player joined or left, the
**player-listener** edge function does the following:

- It checks the listener token.
- It upserts the player's row in `player_status`.
- On a join, it retries the player's queued deliveries. It keeps only rows
  under 5 attempts whose product's mode appears in the server's name, and
  updates each queue row from the retry's outcome.

On the storefront, the model covers three pieces:

- the **cart** hook: add, remove, update quantity, clear, total and item
  count;
- the **sign-in form**'s `validateForm`;
- the **ProtectedRoute** guard, which shows a spinner, redirects to sign-in,
  redirects home, or renders the page.

The model is split into these modules:

- `Common`: the enumerations of the store.
- `Text`: the JavaScript string operations the code relies on.
- `Sorting`: `order(..., ascending)`.
- `RconCodec`: frames, with `CreatePacket` filling a byte array in place.
- `RconClient`: one connect, authenticate and command exchange.
- `Placeholders`: the seven-step replace chain.
- `ServerSelection`: the candidate servers.
- `Failover`: the two nested loops as methods, each proved equal to a trace
  function.
- `Store`: the tables as a `Database` class with the upserts and updates.
- `RconDelivery`: the request handler as a method on the database.
- `PlayerListener`: the listener's handler and retry loop.
- `Cart`, `AuthForm`, `ProtectedRoute`: the storefront pieces.

The network is a parameter `net(i, j)`. It gives the connection made to
candidate `i` for command `j`: either refused, with the runtime's message,
or accepted, with the bytes the server sends. The listener's call of the
delivery function is also a parameter, `invoke(k)`, giving the outcome for
the k-th retried row. Clock readings, new row ids and
`RCON_PASSWORDS` are parameters of the handlers too.

Four behaviours of the code look unintended, judging by the code around
them. The model follows the code each time:

- **No increment on re-queue.** The delivery function's upsert writes the
  literal `attempt_count: 1`
  (`supabase/functions/rcon-delivery/index.ts` line 329), so queueing an
  order that already has a queue row resets its count to 1. The retry path
  of the listener does count attempts, `attempt_count + 1`
  (`supabase/functions/player-listener/index.ts` lines 121-124). A second
  failed delivery leaves the count at 1 (`Store.EnqueueTwice`).
- **Fixed retry cap.** The join handler's query filters with the literal
  `.lt("attempt_count", 5)`, commented "Only fetch if under max attempts"
  (`supabase/functions/player-listener/index.ts` line 77). The retry
  update compares against the row's own `max_attempts` (lines 124 and
  144), and the admin queue page shows `attempt_count / max_attempts`
  (`src/pages/admin/DeliveryQueue.tsx` line 217). A row whose
  `max_attempts` is above 5 stays queued at 5 attempts and is never
  selected again (`PlayerListener.QueuedRowStrandedAtCap`).
- **No row for a skipped server.** A server with no configured password
  gets an entry in the `deliveryLogs` list returned to the caller
  (`supabase/functions/rcon-delivery/index.ts` lines 241-246) and is then
  skipped with `continue`. The only `delivery_logs` insert is inside the
  command loop (line 278), so the skip leaves no row
  (`Failover.SkippedServer`, `Failover.LogsCount`).
- **Queued orders keep no log.** The delivered and failed paths write
  `delivery_log: deliveryLogs` together with the status
  (`supabase/functions/rcon-delivery/index.ts` lines 359-366). The queued
  path writes only `delivery_status: "queued"` (lines 342-345), so the
  entries of the failed attempts are not stored on the order
  (`RconDelivery.Record`).

## Model

Paths are relative to the repository root. `rcon-delivery` stands for
`supabase/functions/rcon-delivery/index.ts` in the prose only; the table
gives full paths.

| member | source | states |
|---|---|---|
| RconCodec.WrapInt32 | supabase/functions/rcon-delivery/index.ts:38-40 | the value setInt32 stores is its argument modulo 2^32 read back as signed 32-bit; values already in range are unchanged |
| RconCodec.Int32LeRoundTrip | supabase/functions/rcon-delivery/index.ts:49-56 | reading back four bytes written little-endian gives the written value wrapped to 32 bits |
| RconCodec.FrameLayout | supabase/functions/rcon-delivery/index.ts:32-44 | a frame is 14 bytes longer than its body; size reads 10 + body length; id and type read back wrapped; the body sits at byte 12; the frame ends in two NULs |
| RconCodec.SetInt32 | supabase/functions/rcon-delivery/index.ts:38-40 | the four bytes at the offset become the little-endian value; every other byte of the buffer is unchanged |
| RconCodec.WriteHeader | supabase/functions/rcon-delivery/index.ts:38-40 | the first 12 bytes become size, id and type; the rest of the buffer is unchanged |
| RconCodec.CopyBody | supabase/functions/rcon-delivery/index.ts:41 | the body bytes land from byte 12 on; the header is unchanged |
| RconCodec.CreatePacket | supabase/functions/rcon-delivery/index.ts:32-44 | the buffer holds exactly the frame of id, type and the UTF-8 body |
| RconCodec.ReadPacket | supabase/functions/rcon-delivery/index.ts:46-60 | on success, what is left of the stream is a suffix of it, at least 12 bytes shorter |
| RconCodec.FrameRoundTrip | supabase/functions/rcon-delivery/index.ts:32-60 | reading an encoded frame gives back its id, type and body, and leaves exactly the bytes that followed it |
| RconCodec.ShortBodyIsEmpty | supabase/functions/rcon-delivery/index.ts:57 | a frame of size 8 or 9 reads as an empty body rather than an error |
| RconClient.SendRconCommand | supabase/functions/rcon-delivery/index.ts:17-90 | the auth frame (id 1, type 3, password) goes first; the command frame (id 2, type 2) goes out if and only if the auth reply is readable and its id is not -1; a reply id of -1 gives "RCON authentication failed"; success if and only if the command's reply is read too, and then the response is that reply's body; any failure carries an error and no response |
| RconClient.WellBehavedServer | supabase/functions/rcon-delivery/index.ts:62-84 | a server that accepts the password and answers the command succeeds with the body of its answer |
| RconClient.RefusingServer | supabase/functions/rcon-delivery/index.ts:67-71 | a server that answers the auth frame with id -1 fails with "RCON authentication failed", and only the auth frame is sent |
| Placeholders.ReplaceAllAbsent | supabase/functions/rcon-delivery/index.ts:255 | a case-insensitive replace-all of a pattern that does not occur changes nothing |
| Placeholders.RenderWithoutTokens | supabase/functions/rcon-delivery/index.ts:254-261 | a template spelling none of the seven placeholders, in any case, is sent unchanged |
| Placeholders.ReplaceAllPieces | supabase/functions/rcon-delivery/index.ts:255 | on a template split into brace-free text, brace-delimited tokens and unclosed braces, a replace-all replaces exactly the tokens equal to the pattern up to case and keeps every other character |
| Placeholders.Parse | supabase/functions/rcon-delivery/index.ts:254 | every template, whatever its braces (nested NBT data included), splits into such pieces, and joining them gives the template back |
| Placeholders.ReplaceAllAny | supabase/functions/rcon-delivery/index.ts:255 | on any template, a replace-all of a placeholder replaces exactly the template's tokens equal to it up to case, and nothing else |
| Placeholders.RenderPieces | supabase/functions/rcon-delivery/index.ts:254-261 | when the recipient and product name hold no '{', and every unclosed brace right before a placeholder is safe (its text does not spell, up to case, the start of one of the seven placeholders), the recipient replaces every {player}/{IGN}/{username}, the quantity every {quantity}/{AMOUNT}, the product name every {product}/{product_name}, each up to case, and every other character is kept |
| Placeholders.RenderAnyTemplate | supabase/functions/rcon-delivery/index.ts:254-261 | the same for any template, nested braces included, under the same two conditions |
| Placeholders.UnguardedTemplate | supabase/functions/rcon-delivery/index.ts:254-261 | the chain can build a placeholder across an unclosed brace that spells the start of one: "{IG{player}}" with recipient "N" renders as "N" |
| Placeholders.SafeOpenBySecond | supabase/functions/rcon-delivery/index.ts:254-261 | an unclosed brace whose second character is not, up to case, p, i, u, q or a is safe, so `{"text":`, `{display:` and `{Name:` are |
| Placeholders.RenderJsonText | supabase/functions/rcon-delivery/index.ts:254-261 | a JSON text component with {player} inside its string, as in `tellraw @a {"text":"Thanks {player}"}`, renders with the recipient in its place and every other character kept |
| Placeholders.RenderNbtName | supabase/functions/rcon-delivery/index.ts:254-261 | `give {player} diamond_sword{display:{Name:'"{player}"'}}` renders with the recipient in both places, the one inside the nested NBT braces included |
| Placeholders.RenderGiveCommand | supabase/functions/rcon-delivery/index.ts:254-261 | "give {IGN} … {AMOUNT}" renders with the recipient and the quantity's digits in place |
| Placeholders.RenderUnknownToken | supabase/functions/rcon-delivery/index.ts:254-261 | an unknown token such as {FOO} passes through unchanged |
| Placeholders.RenderIsSequential | supabase/functions/rcon-delivery/index.ts:254-261 | the replaces run in sequence: a recipient spelled "{amount}" is then replaced by the quantity |
| Placeholders.SubstChainPointwise | supabase/functions/rcon-delivery/index.ts:254-261 | the chain of seven replaces works on each piece of the template on its own |
| Placeholders.ResolveChain | supabase/functions/rcon-delivery/index.ts:254-261 | on one piece, the chain of seven replaces agrees with matching the token against the three spelling lists in order |
| Sorting.SortBy | supabase/functions/rcon-delivery/index.ts:193 | the result is in ascending key order and is a permutation of the input |
| ServerSelection.AssignedIds | supabase/functions/rcon-delivery/index.ts:179-186 | the ids listed are exactly the servers assigned to the product |
| ServerSelection.Filtered | supabase/functions/rcon-delivery/index.ts:187-203 | keeps each server, with its multiplicity, exactly when it is enabled, of the mode, and assigned when the product has assignments |
| ServerSelection.Candidates | supabase/functions/rcon-delivery/index.ts:178-204 | the candidates are in ascending priority, all enabled and of the product's mode, all assigned to the product when it has assignments, and a permutation of the eligible servers |
| ServerSelection.CandidatesComplete | supabase/functions/rcon-delivery/index.ts:184-204 | every enabled server of the mode, assigned when assignments exist, is a candidate |
| Failover.Password | supabase/functions/rcon-delivery/index.ts:237 | the password is the one under the server's id when that is non-empty, else the one under its name; it is empty if and only if both are |
| Failover.ErrorColumn | supabase/functions/rcon-delivery/index.ts:283 | the error column is null exactly when the error is absent or empty |
| Failover.SentCountStops | supabase/functions/rcon-delivery/index.ts:295-299 | every command before the last one sent succeeded; if not all were sent, the last one sent failed |
| Failover.SentAt | supabase/functions/rcon-delivery/index.ts:277-293 | the k-th log entry and the k-th row of a candidate are those of its k-th command |
| Failover.ServerTrace | supabase/functions/rcon-delivery/index.ts:250-300 | on a candidate with a password the commands go out in order, one entry and one row each, stopping right after the first failure; the candidate succeeds exactly when all were sent and all succeeded |
| Failover.SkippedServer | supabase/functions/rcon-delivery/index.ts:239-248 | a candidate without a password gets one failed "N/A" entry with "No RCON password configured", no row, and does not succeed |
| Failover.StopsAtFirstSuccess | supabase/functions/rcon-delivery/index.ts:302-306 | when candidate i is the first to take every command, the loop tries candidates 0..i and no others |
| Failover.TriesEveryServer | supabase/functions/rcon-delivery/index.ts:236-307 | when no candidate takes every command, every candidate is tried |
| Failover.LogsCount | supabase/functions/rcon-delivery/index.ts:236-307 | the entries returned number the rows inserted plus one per skipped candidate |
| Failover.RunServer | supabase/functions/rcon-delivery/index.ts:250-306 | the inner loop returns exactly the candidate's trace, and reports success if and only if every command succeeded |
| Failover.TryServer | supabase/functions/rcon-delivery/index.ts:237-248 | one turn of the outer loop returns the candidate's trace and success |
| Failover.RunFailover | supabase/functions/rcon-delivery/index.ts:236-307 | the loop succeeds if and only if some candidate has a password and takes every command; its entries and rows are exactly the delivery's trace |
| Store.SetStatus | supabase/functions/rcon-delivery/index.ts:167-170 | only the named order's status changes; an unknown id changes nothing |
| Store.SetStatusThenWrite | supabase/functions/rcon-delivery/index.ts:359-366 | the final write of the order's row overrides the earlier "processing" update |
| Store.EnabledOf | supabase/functions/rcon-delivery/index.ts:149-153 | keeps exactly the product's enabled commands, with their multiplicity |
| Store.ProductCommands | supabase/functions/rcon-delivery/index.ts:149-154 | the product's enabled commands, in ascending order_index, and no others |
| Store.Templates | supabase/functions/rcon-delivery/index.ts:254 | the j-th template is the j-th command's command_text |
| Store.RequeueAll | supabase/functions/rcon-delivery/index.ts:322-334 | the order's rows take the upserted columns; other rows are unchanged |
| Store.Enqueue | supabase/functions/rcon-delivery/index.ts:322-334 | the upsert keyed by order_id: an existing row is overwritten in place, otherwise one row is appended; the order's row reads queued, attempt 1, the recipient, the retry message and the time; other orders' rows are unchanged |
| Store.EnqueueKeepsOneRowPerOrder | supabase/functions/rcon-delivery/index.ts:322-334 | the upsert keeps at most one queue row per order |
| Store.EnqueueTwice | supabase/functions/rcon-delivery/index.ts:322-334 | queueing an order twice leaves one row, still at attempt 1; only its timestamp changes |
| Store.UpdateRow | supabase/functions/player-listener/index.ts:118-126 | every row with the id becomes the new row; others are unchanged |
| RconDelivery.PaidStage | supabase/functions/rcon-delivery/index.ts:148-217 | a paid order reaches the loop only with a product, at least one command and at least one candidate, every candidate enabled and of the product's mode |
| RconDelivery.RefusedPasswordFailsCandidate | supabase/functions/rcon-delivery/index.ts:269-299 | a candidate whose server refuses the password fails on the first command, with one "RCON authentication failed" entry |
| RconDelivery.Serve | supabase/functions/rcon-delivery/index.ts:113-376 | a missing id gives 400, an unknown order 404, an unpaid one 400, and none of these writes anything; no commands marks the order delivered; a missing product row gives the 500 of the TypeError; no candidate marks the order failed with a 500; otherwise the loop's rows are appended to delivery_logs and the order is queued (with the queue upsert) if no candidate succeeded and the recipient is offline, else delivered or failed with its log |
| RconDelivery.ServePaid | supabase/functions/rcon-delivery/index.ts:148-217 | the same outcomes from the command fetch on |
| RconDelivery.Deliver | supabase/functions/rcon-delivery/index.ts:226-307 | after "processing" and the loop, the outcome is recorded as in Record, and the interim status is overwritten |
| RconDelivery.Record | supabase/functions/rcon-delivery/index.ts:309-366 | rows appended; offline and failed: the queue upsert, status queued, no log stored, the queued reply; else status delivered or failed with the log stored, queue unchanged |
| PlayerListener.Authorized | supabase/functions/player-listener/index.ts:18-28 | with no (or an empty) configured token every request passes; otherwise a request passes if and only if its header equals the token |
| PlayerListener.LastSegment | supabase/functions/player-listener/index.ts:33 | the event is the text after the last '/', which contains no '/' |
| PlayerListener.Joined | supabase/functions/player-listener/index.ts:54-65 | the player's row is online, with the server (or null) and the join time; the last leave time is kept; other players are unchanged |
| PlayerListener.Left | supabase/functions/player-listener/index.ts:172-183 | the player's row is offline with no server and the leave time; the last join time is kept; other players are unchanged |
| PlayerListener.Selected | supabase/functions/player-listener/index.ts:72-77 | keeps exactly the player's queued rows with fewer than 5 attempts |
| PlayerListener.Matching | supabase/functions/player-listener/index.ts:89-93 | keeps a row exactly when no server is named, its product's mode is unknown, or the lower-cased server name contains the mode |
| PlayerListener.FailureText | supabase/functions/player-listener/index.ts:123 | a non-empty error is kept; otherwise "Delivery failed" |
| PlayerListener.RetryUpdate | supabase/functions/player-listener/index.ts:106-146 | success marks the row delivered without counting an attempt; any other outcome counts one attempt, stores the message, and fails the row if and only if it reached max_attempts |
| PlayerListener.RetryAll | supabase/functions/player-listener/index.ts:95-154 | the loop leaves the queue with each matching row's update applied in turn, and returns one result per row |
| PlayerListener.ResultsPerRow | supabase/functions/player-listener/index.ts:116-152 | there is one result per row, in order, naming its order and succeeding exactly when the retry succeeded |
| PlayerListener.RetriedKeepsOthers | supabase/functions/player-listener/index.ts:114-146 | rows not retried are unchanged |
| PlayerListener.RetriedKeepsIds | supabase/functions/player-listener/index.ts:118-146 | the retries never change which id sits at which position of the queue |
| PlayerListener.RetriedRow | supabase/functions/player-listener/index.ts:95-146 | when the retried rows have distinct ids, the queue row of the j-th retried row ends up as that row's retry update for the j-th invocation's outcome |
| PlayerListener.RetryKeepsQueuedBelowMax | supabase/functions/player-listener/index.ts:121-124 | a queued row stays below its max_attempts after a retry |
| PlayerListener.CappedRowNotSelected | supabase/functions/player-listener/index.ts:77 | a row at 5 attempts or more is never selected, whatever its max_attempts |
| PlayerListener.QueuedRowStrandedAtCap | supabase/functions/player-listener/index.ts:72-77 | with max_attempts above 5, a failed fifth attempt leaves the row queued but no longer selectable |
| PlayerListener.Serve | supabase/functions/player-listener/index.ts:18-201 | a bad token gives 401, a missing name 400, and a path other than join or leave 400, all without writes; leave writes the offline row; join writes the online row, retries exactly the matching rows, and reports their count and results |
| Text.Includes | supabase/functions/player-listener/index.ts:92 | true if and only if the text occurs at some position |
| Text.NatStringRoundTrip | supabase/functions/rcon-delivery/index.ts:258 | the digits String(n) prints read back as n |
| Text.Utf8Append | supabase/functions/rcon-delivery/index.ts:33 | encoding a concatenation concatenates the encodings |
| Text.Utf16Length | src/pages/Auth.tsx:45 | a string's length counts each character once or twice |
| Cart.AddToLines | src/hooks/useCart.tsx:53-57 | each line of the product gains the quantity; other lines are unchanged |
| Cart.AddExisting | src/hooks/useCart.tsx:49-58 | adding a product already in the cart keeps the number of lines and only grows its line |
| Cart.AddNew | src/hooks/useCart.tsx:49-61 | adding a new product appends one line at the end |
| Cart.AddKeepsDistinct | src/hooks/useCart.tsx:49-61 | adding never puts a product on two lines |
| Cart.RemoveItem | src/hooks/useCart.tsx:63-65 | no line of the product is left; every other line is kept with its multiplicity |
| Cart.RemoveSplits | src/hooks/useCart.tsx:63-65 | removal works line by line, so it keeps the order of the remaining lines |
| Cart.RemoveAbsent | src/hooks/useCart.tsx:63-65 | removing a product not in the cart changes nothing |
| Cart.RemoveKeepsDistinct | src/hooks/useCart.tsx:63-65 | removal never puts a product on two lines |
| Cart.SetLines | src/hooks/useCart.tsx:72-76 | each line of the product takes the quantity; other lines are unchanged |
| Cart.UpdateNonPositiveRemoves | src/hooks/useCart.tsx:67-71 | a quantity of zero or less removes the product |
| Cart.UpdatePositiveSets | src/hooks/useCart.tsx:67-77 | a positive quantity sets the product's line and nothing else; a product not in the cart leaves it unchanged |
| Cart.SetLinesKeepsDistinct | src/hooks/useCart.tsx:72-76 | setting quantities keeps every line's product, so the lines stay distinct |
| Cart.UpdateKeepsDistinct | src/hooks/useCart.tsx:67-77 | updateQuantity never puts a product on two lines |
| Cart.ItemCountAppend | src/hooks/useCart.tsx:88 | the item count of two carts joined is the sum of their counts |
| Cart.TotalAppend | src/hooks/useCart.tsx:83-86 | the total of two carts joined is the sum of their totals |
| Cart.AddToLinesSums | src/hooks/useCart.tsx:53-86 | growing the product's lines adds the quantity once per such line to the count, and its price times the quantity per such line to the total |
| Cart.AddItemCount | src/hooks/useCart.tsx:49-88 | in a cart with one line per product, adding q items raises the item count by exactly q |
| Cart.AddItemTotal | src/hooks/useCart.tsx:49-86 | in a cart with one line per product, adding q raises the total by q times the price of the product's line: the stored price if the product was already there, the given price otherwise |
| Cart.ClearedSums | src/hooks/useCart.tsx:79-88 | a cleared cart totals 0, counts 0 items and repeats no product |
| AuthForm.ValidEmailMatches | src/pages/Auth.tsx:39 | an address the split test accepts matches the pattern |
| AuthForm.MatchIsValidEmail | src/pages/Auth.tsx:39 | an address the pattern matches passes the split test |
| AuthForm.ValidEmailIsPattern | src/pages/Auth.tsx:39 | the executable test accepts exactly the addresses the regular expression matches |
| AuthForm.PatternShape | src/pages/Auth.tsx:39 | a valid address has no whitespace, exactly one '@' (not the first character), and a '.' after it |
| AuthForm.ValidateForm | src/pages/Auth.tsx:34-55 | each message is reported exactly when its condition holds: email required if empty, invalid if not matching; password required if empty, too short under 6; display name too short only on sign-up, when filled in and under 2; the form is valid exactly when no message is set |
| AuthForm.LoginIgnoresDisplayName | src/pages/Auth.tsx:49 | on sign-in the display name never affects the result |
| ProtectedRoute.Guard | src/components/auth/ProtectedRoute.tsx:10-51 | spinner exactly while loading; the sign-in redirect, carrying the location, exactly when no user is signed in; the redirect home exactly on an admin page for a user who is neither admin nor manager; otherwise the children |
| ProtectedRoute.RoleIrrelevantWithoutAdmin | src/components/auth/ProtectedRoute.tsx:33-48 | on an ordinary page the role is never consulted |
| ProtectedRoute.AdminOnlyNarrows | src/components/auth/ProtectedRoute.tsx:33-48 | requiring a staff role only ever turns rendering into the redirect home |

## Left out

- The HTTP layer of both functions is not modelled: CORS headers, the OPTIONS preflight, response headers, and JSON parsing of request bodies. A body that does not parse is an exception the catch-all turns into a 500.
- The catch-all 500 (`rcon-delivery` lines 377-384, `player-listener` lines 203-210) is modelled only for the one exception the model can raise: the missing product row.
- Store errors are not modelled: `commandsError` (the 500 "Failed to fetch delivery commands"), `queueError`, `statusError`, and failed updates. Every store call succeeds in the model.
- Reading `RCON_PASSWORDS` from the environment and its JSON parse are not modelled. The handlers take the parsed map as a parameter.
- `delay_ms` waits, `Date.now()` and `execution_time_ms` are not modelled. The `delivery_logs` row carries no duration.
- The listener's `timestamp` is not parsed. The time is a parameter `now`. A `timestamp` that `new Date` cannot parse makes `toISOString()` throw (`supabase/functions/player-listener/index.ts` line 47). The catch-all then answers 500 before any write. The model does not capture this path.
- The `action` field of the delivery request is read by the source but affects nothing, so it is not modelled.
- RconCodec.ReadPacket: a short read from the socket is treated as an error. Deno's `conn.read` can return fewer bytes than asked and leave the rest of the buffer zeroed. The model does not capture frames split across reads, or zero-filled bodies.
- RconClient.SendRconCommand: the response is the body's bytes. The model does not capture the UTF-8 decoding of those bytes back into text.
- RconClient.SendRconCommand: the error texts of a failed read approximate the runtime's messages. The messages of a refused connection come from the network parameter.
- RconClient.SendRconCommand: the connection and its closing are not modelled. The network is the oracle `net(i, j)`, one connection per candidate and command.
- Placeholders.RenderAnyTemplate: the meaning is proved only for templates where every unclosed brace directly before one of the seven placeholders is safe: its text does not spell, up to case, the start of a placeholder. A brace such as `{IG` or a bare `{` before a placeholder is not safe. Replacing the placeholder glues its value onto the brace, and a later step of the chain can then match across the join (`Placeholders.UnguardedTemplate`). A brace whose text breaks off from every placeholder's spelling is safe. That covers the `{"text":` of JSON text components and NBT tags such as `{display:`, `{Name:` or `{id:` (`Placeholders.SafeOpenBySecond`, `Placeholders.RenderJsonText`, `Placeholders.RenderNbtName`).
- Placeholders.ReplaceAll: `$` patterns in a replacement string (`$&`, `$1` and the like) are not interpreted. Text is inserted literally.
- Placeholders.ReplaceAll: case folding covers ASCII letters only. The model does not capture Unicode case-insensitive matching of non-ASCII letters in a placeholder.
- Text.ToLower: ASCII only. `toLowerCase` of other letters in a server name is not modelled.
- PlayerListener.Serve: a retry's call to the delivery function is the parameter `invoke(k)` and has no effect on the tables in the model. The delivery function's own writes to the order and the queue during a retry are not composed with the listener's update.
- PlayerListener.FailureOf: a thrown non-Error value ("Unknown error") is not distinguished. Every throw carries a message.
- Cart.Total: prices are whole rupees (`int`). The model does not capture fractional `price_inr` values or floating-point rounding.
- Cart: the localStorage load and save and the React state plumbing are not modelled. The operations are functions from the old list to the new one.
- AuthForm.ValidateForm: the error record replaces the form's `errors` state; setting that state is not modelled.
- ProtectedRoute.Guard: the combined `loading` of the auth hook (`src/hooks/useAuth.tsx` lines 170-171) is taken as given. The session and role fetching behind it are not part of this model.
- Store.Enqueue: the upsert is modelled as keyed by `order_id`. The generated types give `delivery_queue_order_id_fkey` as `isOneToOne: false` (`src/integrations/supabase/types.ts` lines 142-144), so nothing in the sources shows a unique index on `order_id`. Without one, `onConflict: "order_id"` fails. The error is only logged (`supabase/functions/rcon-delivery/index.ts` line 337), and the order is still marked queued with no queue row. No migration is part of this model, so this case is not modelled.
- Concurrency is not modelled: two deliveries of one order at once, or a retry racing a delivery. The source takes no lock either.
