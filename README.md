# Richify core, modelled in Dafny

Richify is an Electron application that shows a custom Discord Rich
Presence. Its main process keeps a connection to the local Discord client
through the `discord-rpc` library. It lists the running Windows
applications, uploads images for the presence, and answers IPC messages
from the renderer. The renderer may only use the channels the preload bridge
lets through. Its dialogs edit presence profiles, explain errors and manage
an image library.

This project models that core:

| module | file | models |
|---|---|---|
| `DiscordRpc` | `discord_rpc.dfy` | `DiscordRPCManager`, the manager the app loads, as a class: connected flag, bounded reconnection counter, single pending timer, and the `ready`/`disconnected`/IPC handlers |
| `DiscordSession` | `discord_session.dfy` | the second manager, `DiscordManager`, as a class: client replacement on `initialize`, presence defaults, teardown |
| `ProcessManager` | `process_manager.dfy` | the `tasklist` parser, entry synthesis, and a class holding the process-list cache and the selected application |
| `Applications` | `applications.dfy` | `getRunningApplications`: the regular expression, the line loop, the keyword filter and the sort |
| `MainIndex` | `main_index.dfy` | the IPC handlers of the main entry point; its own copy of `getRunningApplications` (`Richify/src/main/index.ts`, lines 26-65) is the same code as the one in `applications.ts`, so both are modelled by `Applications` |
| `ImageUpload` | `image_upload.dfy` | the Imgur upload, its local fallback, MIME types and data URLs |
| `Preload` | `preload.dfy` | the channel whitelists of `send`, `on`, `removeListener` and `invoke` |
| `Profiles` | `profiles.dfy` | the profile list operations |
| `ErrorDisplay` | `error_display.dfy` | `getErrorSolutions` |
| `ImageLibrary` | `image_library.dfy` | categories, filtering and the uploaded image's key and name |

Shared helpers:

- `Wrappers` holds `Option`, `Result`, `Outcome` and the thrown value.
- `JsString` holds the JavaScript string operations used: trim, split, includes, `toLowerCase` and decimal printing.
- `JsPath` holds win32 `path.basename` and `path.extname`.
- `DiscordClient` holds the log of calls made on a client.

External effects are inputs of the model:

| effect | modelled as |
|---|---|
| each `discord-rpc` call | an `Outcome` parameter (done or threw); the call itself is appended to a `calls` log field |
| `setTimeout` / `clearTimeout` | a set of pending timers plus the held handle; the event loop running a timer is the `FireTimer` step |
| `Date.now()` | a `now` parameter |
| command output (`exec`) | a `Result<string>` |
| `fs.existsSync` | a set of existing paths |
| `fs.readFileSync` and base64 encoding | function parameters |
| the Imgur response | an `ImgurOutcome` value |
| `URL.createObjectURL` | a string parameter |

## Model

Rows are grouped by source operation; each operation's helper functions and lemmas follow it.

| member | source | states |
|---|---|---|
| DiscordRpc.RpcManager.constructor | Richify/src/main/discord-rpc.ts:8-18 | starts disconnected, with no attempts, no timer, and the start timestamp fixed to the creation time |
| DiscordRpc.RpcManager.OnReady | Richify/src/main/discord-rpc.ts:21-25 | the `ready` event sets the flag and resets the counter |
| DiscordRpc.RpcManager.OnDisconnected | Richify/src/main/discord-rpc.ts:27-31 | the `disconnected` event clears the flag and schedules a reconnection while attempts remain, using up one timer id; at the cap the timers and the next id are unchanged |
| DiscordRpc.RpcManager.HandleUpdatePresence | Richify/src/main/discord-rpc.ts:33-48 | connects when needed; replies with success only if the login (when needed) and the update both succeeded; otherwise replies with the error message or `Erreur inconnue` and schedules a reconnection; when no timer is scheduled the timers and the next timer id are unchanged |
| DiscordRpc.RpcManager.HandleDisconnect | Richify/src/main/discord-rpc.ts:50-60 | replies on `RPC_DISCONNECTED` with success exactly when destroy succeeded, and with the error message otherwise; the timer is cleared, and the attempt counter and next timer id are unchanged |
| DiscordRpc.RpcManager.Connect | Richify/src/main/discord-rpc.ts:63-78 | a no-op when connected; otherwise one login call, and only a successful login sets the flag and resets the counter; a failure clears the flag and is returned to the caller |
| DiscordRpc.RpcManager.Disconnect | Richify/src/main/discord-rpc.ts:80-94 | clears and forgets the held timer before calling destroy; only a successful destroy clears the flag; the destroy error is returned to the caller |
| DiscordRpc.RpcManager.AttemptReconnect | Richify/src/main/discord-rpc.ts:96-116 | schedules nothing at five attempts; otherwise replaces the held timer by exactly one new pending timer with the backoff delay; the counter stays bounded |
| DiscordRpc.ReconnectDelay | Richify/src/main/discord-rpc.ts:115 | the delay is `5000 * min(attempts + 1, 5)`: between 5000 and 25000 ms, a multiple of 5000, one unit per attempt below five |
| DiscordRpc.ReconnectDelayMonotonic | Richify/src/main/discord-rpc.ts:115 | the delay never decreases as the attempts grow |
| DiscordRpc.RpcManager.FireTimer | Richify/src/main/discord-rpc.ts:106-114 | running the timer counts one attempt and connects; a failed login schedules the next attempt with the next timer id while the cap allows; otherwise no timer stays pending and the next id is unchanged |
| DiscordRpc.AtMostOnePending | Richify/src/main/discord-rpc.ts:102-106 | when every pending timer is the held one, at most one timer is pending |
| DiscordRpc.RpcManager.UpdatePresence | Richify/src/main/discord-rpc.ts:118-139 | when not connected it fails with `Non connecté à Discord` and makes no client call; otherwise it sends exactly the built activity with the start timestamp fixed at construction |
| DiscordRpc.BuildActivity | Richify/src/main/discord-rpc.ts:124-133 | the activity sent has `details` from the input when truthy, else `En ligne`; `state` and the four image fields are passed through unchanged; `instance` is false; the start timestamp is the one given |
| DiscordSession.DiscordManager.constructor | Richify/src/main/discord.ts:4-13 | starts with no client, an empty id, disconnected and with no activity |
| DiscordSession.DiscordManager.Initialize | Richify/src/main/discord.ts:15-48 | returns at once, changing nothing, when connected with the same id; otherwise tears down the old client first; a failed teardown is returned and changes nothing but the calls made; after a teardown it sets the id, creates a fresh client and logs in; the flag is set only after a successful login; a failed login sends `DISCORD_ERROR` and is returned to the caller |
| DiscordSession.DiscordManager.Notify | Richify/src/main/discord.ts:35 | a window message is sent only when there is a window |
| DiscordSession.DiscordManager.OnReady | Richify/src/main/discord.ts:33-36 | the handler registered after login sends `DISCORD_CONNECTED` |
| DiscordSession.DiscordManager.OnDisconnected | Richify/src/main/discord.ts:38-42 | the handler registered after login clears the flag and sends `DISCORD_DISCONNECTED` |
| DiscordSession.DiscordManager.UpdatePresence | Richify/src/main/discord.ts:50-72 | fails with `Discord client not connected` without a connected client and changes nothing; otherwise sends the built activity and keeps it as current only after `setActivity` succeeded |
| DiscordSession.BuildActivity | Richify/src/main/discord.ts:56-63 | `largeImageKey` falls back to `default` and `largeImageText` to `details`; `instance` is false; the start timestamp is the call time |
| DiscordSession.DiscordManager.Disconnect | Richify/src/main/discord.ts:74-88 | a no-op without a client; otherwise clears the activity, then destroys; on success the client, the flag and the activity are reset; a failure is returned and leaves them unchanged |
| DiscordSession.DiscordManager.IsConnected | Richify/src/main/discord.ts:90-92 | returns the flag and changes nothing |
| DiscordSession.DiscordManager.GetCurrentActivity | Richify/src/main/discord.ts:94-96 | returns the current activity and changes nothing |
| ProcessManager.ProcessManager.constructor | Richify/src/main/process-manager.ts:13-21 | starts with no cache, cache time 0 and no selection |
| ProcessManager.ProcessManager.HandleGetRunningApps | Richify/src/main/process-manager.ts:24-32 | replies with the listing, or with the fixed French failure message when the command failed; it never throws |
| ProcessManager.ProcessManager.SelectApplication | Richify/src/main/process-manager.ts:34-38 | the selection becomes the first cached application with the id, and none when there is no cache or no such application |
| ProcessManager.FindById | Richify/src/main/process-manager.ts:36 | the first application with the id, or none when no application has it |
| ProcessManager.ProcessManager.HandleGetAppIcon | Richify/src/main/process-manager.ts:40-47 | the reply is the icon of the path: `default-icon` or an existing file |
| ProcessManager.ProcessManager.GetRunningApps | Richify/src/main/process-manager.ts:50-70 | a cache younger than 5000 ms is returned unchanged and no query is made; otherwise the command is run once, and on success the new entries are returned and cached with the current time; a failure leaves the cache as it was |
| ProcessManager.ProcessManager.CacheValid | Richify/src/main/process-manager.ts:53 | a cache is valid only while it holds a list, and no longer once 5000 ms have passed since it was stored |
| ProcessManager.Entries | Richify/src/main/process-manager.ts:58-63 | one entry per title, in order |
| ProcessManager.EntryShape | Richify/src/main/process-manager.ts:58-63 | entry `i` has id `name-i`, the name is the title's base name without extension, the path is the title, and the icon is that of the title |
| ProcessManager.EntryIdsDistinct | Richify/src/main/process-manager.ts:59 | two entries of one listing never share an id |
| ProcessManager.ParseTasklist | Richify/src/main/process-manager.ts:82-93 | each title of the output is the title of one of its lines |
| ProcessManager.ParseTasklistConcat | Richify/src/main/process-manager.ts:82-83 | parsing two outputs joined by a newline is parsing each one, in order |
| ProcessManager.ParseTasklistLine | Richify/src/main/process-manager.ts:84-91 | a single line yields its ninth comma field with every `"` removed, exactly when the line is not blank and that field is non-empty without `N/A` |
| ProcessManager.ParsedTitles | Richify/src/main/process-manager.ts:82-91 | no more titles than lines, and every title is well formed and holds no newline |
| ProcessManager.TitlesOfLines | Richify/src/main/process-manager.ts:82-91 | at most one title per line; each title is non-empty, free of `N/A`, `"` and `,`, and each of its characters occurs in one of the lines |
| ProcessManager.TitlesOfLinesAppend | Richify/src/main/process-manager.ts:82-91 | the parse of the lines handles each line on its own, in order |
| ProcessManager.LineTitles | Richify/src/main/process-manager.ts:84-90 | position `k` holds what line `k` contributes: its title or nothing |
| ProcessManager.TitlesFromLines | Richify/src/main/process-manager.ts:82-91 | every title kept is the title of one of the lines |
| ProcessManager.TitleCharsFromLines | Richify/src/main/process-manager.ts:82-91 | each character of a title occurs in the line whose title it is |
| ProcessManager.TitleOfLine | Richify/src/main/process-manager.ts:84-90 | a line contributes a title only when it is not blank; that title is well formed and made of the line's own characters |
| ProcessManager.WindowTitle | Richify/src/main/process-manager.ts:86-87 | the title field exists exactly when the line has more than eight comma fields; it holds no `"` and no `,` |
| ProcessManager.AppName | Richify/src/main/process-manager.ts:98-100 | the name followed by the extension is the base name, and a non-empty base name gives a non-empty name |
| ProcessManager.AppIcon | Richify/src/main/process-manager.ts:102-118 | the icon is the `.ico` path in the temporary directory when that file exists, and `default-icon` otherwise |
| ProcessManager.JoinPath | Richify/src/main/process-manager.ts:105 | the directory, then one separator, then the file name at the end |
| Applications.GetRunningApplications | Richify/src/main/applications.ts:11-50 | the function resolves to the filtered, sorted applications of the lines after the header, and to `[]` when the command fails |
| Applications.RunningApplications | Richify/src/main/applications.ts:11-50 | `[]` when the command fails; the list is always sorted by name |
| Applications.RunningApplicationsProperties | Richify/src/main/applications.ts:34-45 | the result is sorted, has no system program, has at most one entry per non-header line, and holds exactly the parsed applications that pass the filter |
| Applications.FirstLineIgnored | Richify/src/main/applications.ts:19 | the first line is skipped, whatever it holds |
| Applications.CollectApplications | Richify/src/main/applications.ts:17-32 | the `forEach` loop adds, in order, exactly the applications the lines yield |
| Applications.ParsedApplications | Richify/src/main/applications.ts:17-32 | at most one application per line, each with a non-empty name; nothing is deduplicated |
| Applications.ParsedApplicationsStep | Richify/src/main/applications.ts:20-32 | each line appends what it yields to the result of the lines before it |
| Applications.HeaderRowYieldsNothing | Richify/src/main/applications.ts:19 | the CSV header row cannot produce an entry |
| Applications.LineApplication | Richify/src/main/applications.ts:22-30 | an application comes from a line only with a non-empty name, so the process-name fallback is never used |
| Applications.LineApplicationId | Richify/src/main/applications.ts:24-29 | an application's id is a non-empty string of digits |
| Applications.CsvRowApplication | Richify/src/main/applications.ts:22-30 | a well-formed row gives `{id: pid, name: trimmed title}` exactly when the trimmed title is not empty |
| Applications.FirstMatch | Richify/src/main/applications.ts:22 | `line.match` finds a match exactly when the pattern matches at some position of the line, and then gives the match at such a position |
| Applications.FirstMatchExists | Richify/src/main/applications.ts:22 | `line.match` finds a match exactly when the pattern matches at some position |
| Applications.FirstMatchIsLeftmost | Richify/src/main/applications.ts:22 | the match found is the one at the leftmost matching position |
| Applications.NoDigitNoMatch | Richify/src/main/applications.ts:22 | a line without a digit never matches |
| Applications.LeftmostExists | Richify/src/main/applications.ts:22 | the scan from left to right finds a result exactly when some position in range gives one |
| Applications.LeftmostIsFirst | Richify/src/main/applications.ts:22 | the scan returns the result of the first position that gives one |
| Applications.MatchAt | Richify/src/main/applications.ts:22 | a match starts at a `"` and its id and name captures are not empty |
| Applications.CapturesShape | Richify/src/main/applications.ts:22-24 | a match's id is a non-empty run of digits, its name is non-empty without `"`, its title has no `"` |
| Applications.DigitRun | Richify/src/main/applications.ts:22 | `\d+` from a position: the longest run of digits |
| Applications.DigitRunExact | Richify/src/main/applications.ts:22 | a run of digits that ends at a non-digit is exactly what `\d+` matches |
| Applications.NonQuoteRun | Richify/src/main/applications.ts:22 | `[^"]` repeated from a position: the longest run without `"` |
| Applications.NonQuoteRunExact | Richify/src/main/applications.ts:22 | a run without quotes that ends at a quote is exactly what `[^"]+` matches |
| Applications.MatchAtRow | Richify/src/main/applications.ts:22 | a string laid out as a quoted three-field row is matched at its start, with its fields as captures |
| Applications.CsvRowLayout | Richify/src/main/applications.ts:21 | where each field of a quoted row lies |
| Applications.CsvRowMatches | Richify/src/main/applications.ts:21-24 | a well-formed `"pid","name","title"` row captures its three fields |
| Applications.FilterSystem | Richify/src/main/applications.ts:35-44 | keeps exactly the applications whose lower-cased name has none of the six keywords, as a sub-multiset |
| Applications.NotSystemKeywords | Richify/src/main/applications.ts:36-43 | an application is kept exactly when its lower-cased name contains none of `system`, `runtime`, `service`, `powershell`, `cmd`, `explorer` |
| Applications.Filter | Richify/src/main/applications.ts:35 | `filter` returns at most as many elements as it was given |
| Applications.FilterKeeps | Richify/src/main/applications.ts:35 | `filter` keeps exactly the elements that pass its test, and drops some without adding any |
| Applications.SortByName | Richify/src/main/applications.ts:45 | the sort is a permutation |
| Applications.SortByNameSorted | Richify/src/main/applications.ts:45 | the sort's result is sorted by name |
| Applications.Insert | Richify/src/main/applications.ts:45 | inserting adds exactly one element |
| Applications.InsertSorted | Richify/src/main/applications.ts:45 | inserting into a sorted list keeps it sorted |
| Applications.NameLeTotal | Richify/src/main/applications.ts:45 | the name order compares any two names |
| Applications.NameLeTrans | Richify/src/main/applications.ts:45 | the name order is transitive |
| MainIndex.HandleGetRunningApps | Richify/src/main/index.ts:128-142 | the reply is always a success, carrying the listing |
| MainIndex.AppsEnvelope | Richify/src/main/index.ts:128-142 | a resolved listing becomes `{success: true, data}` and a rejection the fixed failure message |
| MainIndex.GetRunningAppsAlwaysSucceeds | Richify/src/main/index.ts:128-142 | the reply is always a success, because the listing never rejects; it is `[]` when the command fails, and is sorted and filtered |
| MainIndex.HandleUpdatePresence | Richify/src/main/index.ts:149-153 | the stub replies `PRESENCE_UPDATED` with success |
| MainIndex.UpdatePresenceIgnoresInput | Richify/src/main/index.ts:149-153 | the reply does not depend on the presence sent |
| ImageUpload.UploadImage | Richify/src/main/services/image-upload.ts:13-64 | a success exactly when there is no error; a failure has the empty URL and happens only for a `file:` input |
| ImageUpload.UploadWith | Richify/src/main/services/image-upload.ts:13-64 | for any client id: a success exactly when there is no error; a failure has the empty URL and happens only for a `file:` input |
| ImageUpload.UploadKeepsUrls | Richify/src/main/services/image-upload.ts:16-18 | input starting with `http` is returned unchanged with no request |
| ImageUpload.UploadAlwaysRequests | Richify/src/main/services/image-upload.ts:8-45 | the client id is configured, so the local-only branch is never taken and the payload is always posted |
| ImageUpload.UnconfiguredStoresLocally | Richify/src/main/services/image-upload.ts:28-32 | with no configured id, everything but a URL is stored locally without a request |
| ImageUpload.UploadFallsBack | Richify/src/main/services/image-upload.ts:47-63 | Imgur's link is returned only for an OK response with a successful body that has data; any other response or error gives exactly the local fallback |
| ImageUpload.UploadFailureOnlyFromFile | Richify/src/main/services/image-upload.ts:13-96 | an upload fails only when the fallback had to read a file and the read failed |
| ImageUpload.RequestPayload | Richify/src/main/services/image-upload.ts:28-45 | a request is sent exactly when the client id is configured and the input is not an URL, and it carries the payload |
| ImageUpload.NoRequestIgnoresImgur | Richify/src/main/services/image-upload.ts:16-32 | without a request, the result does not depend on Imgur's answer |
| ImageUpload.UploadPayload | Richify/src/main/services/image-upload.ts:21-26 | an input that is not a `data:image` URL is posted as it is; a `data:image` URL gives no payload exactly when it has no comma, and otherwise a payload with no comma made of the input's characters |
| ImageUpload.UploadPayloadField | Richify/src/main/services/image-upload.ts:24-26 | for every `data:image` input with a comma, the payload is the text between the first comma and the next one, or the end of the input |
| ImageUpload.DataUrlPayload | Richify/src/main/services/image-upload.ts:24-26 | for an image data URL the payload uploaded is its base64 text |
| ImageUpload.StoreImageLocally | Richify/src/main/services/image-upload.ts:70-96 | there is always a URL; the result is a success exactly when there is no error, and a failure has the empty URL |
| ImageUpload.StoreLocallyUnchanged | Richify/src/main/services/image-upload.ts:73-75 | a `data:image` input, and any input not starting with `file:`, is returned unchanged as a success |
| ImageUpload.StoreLocallyFile | Richify/src/main/services/image-upload.ts:78-95 | a `file://` input is read at the path after the scheme and becomes the data URL of its MIME type and content; a read error gives `{success: false, url: ''}` with the message |
| ImageUpload.GetMimeType | Richify/src/main/services/image-upload.ts:101-117 | the type is `application/octet-stream` or starts with `image/`, and holds no `;` or `,` |
| ImageUpload.MimeOfExtension | Richify/src/main/services/image-upload.ts:104-116 | a MIME type never holds `;` or `,` |
| ImageUpload.MimeTypeTable | Richify/src/main/services/image-upload.ts:101-117 | each MIME type comes exactly from its extensions, in any case, and anything else gets `application/octet-stream` |
| ImageUpload.MimeTypeIgnoresCase | Richify/src/main/services/image-upload.ts:101-102 | two paths equal up to case get the same MIME type |
| ImageUpload.ToLowerIdempotent | Richify/src/main/services/image-upload.ts:102 | lower-casing twice is lower-casing once |
| ImageUpload.CreateDataUrl | Richify/src/main/services/image-upload.ts:122-124 | the URL starts with `data:` and the MIME type and ends with the base64 text |
| ImageUpload.ParseDataUrl | Richify/src/main/services/image-upload.ts:122-124 | only a `data:` URL is read, into parts from which `createDataURL` rebuilds the same URL |
| ImageUpload.DataUrlOfParts | Richify/src/main/services/image-upload.ts:122-124 | a `data:` URL reads as the data URL of the parts around its marker |
| ImageUpload.DataUrlRoundTrip | Richify/src/main/services/image-upload.ts:122-124 | a data URL reads back as the MIME type and the base64 text it was made from |
| Preload.Send | Richify/src/preload/index.ts:11-25 | `send` forwards exactly on the seven listed channels and drops the rest silently |
| Preload.On | Richify/src/preload/index.ts:27-45 | `on` registers a wrapper exactly on the listed channels |
| Preload.Called | Richify/src/preload/index.ts:40-43 | the functions a message calls come from the registrations on its channel |
| Preload.RemoveListener | Richify/src/preload/index.ts:46-60 | as written: off the list, or when `func` itself was never registered, nothing changes; otherwise exactly one `(channel, func)` registration goes and every other registration stays, as a multiset |
| Preload.RemoveLast | Richify/src/preload/index.ts:58 | removing a registration takes out exactly one registration equal to it when there is one (the multiset loses exactly that entry), and nothing otherwise |
| Preload.RemoveLastIsLastOccurrence | Richify/src/preload/index.ts:58 | the registration removed is the last one equal to the entry; the registrations before and after it stay, in order |
| Preload.RemoveLastKeepsOthers | Richify/src/preload/index.ts:58 | removing a registration keeps every different one |
| Preload.RemoveListenerLeavesWrapper | Richify/src/preload/index.ts:40-58 | as written, `removeListener` after `on` leaves the wrapper registered |
| Preload.RemoveListenerCounterexample | Richify/src/preload/index.ts:40-58 | `on` then `removeListener` for one function still leaves that function called |
| Preload.RemoveListenerFixed | Richify/src/preload/index.ts:46-59 | the corrected removal touches only the listed channels and only removes registrations |
| Preload.RemoveListenerFixedUndoesOn | Richify/src/preload/index.ts:27-59 | the corrected `removeListener` undoes `on` exactly |
| Preload.RemoveListenerFixedStopsCalls | Richify/src/preload/index.ts:27-59 | after the corrected removal, messages call the same functions as before `on` |
| Preload.ListenListsAgree | Richify/src/preload/index.ts:30-56 | `on` and `removeListener` accept the same channels |
| Preload.Invoke | Richify/src/preload/index.ts:61-77 | `invoke` forwards exactly on the listed channels and otherwise rejects with `Channel <name> is not allowed` |
| Preload.NotAllowedNamesChannel | Richify/src/preload/index.ts:76 | the rejection message determines the channel |
| Preload.RendererChannelsAllowed | Richify/src/preload/index.ts:14-72 | the channels the renderer uses are on the lists |
| Profiles.NewProfile | Richify/src/renderer/components/ProfileManager.tsx:79-84 | the new profile's id is the time in decimal, its name the typed name or else the application's name, its pattern the application's name, its config the current one |
| Profiles.SaveCurrentAsProfile | Richify/src/renderer/components/ProfileManager.tsx:76-88 | a no-op without an application or a config; otherwise appends exactly the new profile and clears the typed name |
| Profiles.WithoutId | Richify/src/renderer/components/ProfileManager.tsx:91 | keeps exactly the profiles with another id |
| Profiles.WithoutIdAppend | Richify/src/renderer/components/ProfileManager.tsx:91 | the filter keeps the order |
| Profiles.WithoutIdAbsent | Richify/src/renderer/components/ProfileManager.tsx:91 | a list without the id is unchanged |
| Profiles.DeleteProfile | Richify/src/renderer/components/ProfileManager.tsx:90-93 | deleting changes only the list, to its filtered version |
| Profiles.DeleteProfileRemoves | Richify/src/renderer/components/ProfileManager.tsx:90-93 | deleting removes every profile with the id and keeps all others |
| Profiles.DeleteProfileIdempotent | Richify/src/renderer/components/ProfileManager.tsx:90-93 | deleting twice is deleting once |
| Profiles.DeleteUndoesSave | Richify/src/renderer/components/ProfileManager.tsx:76-93 | deleting the profile just saved restores the list, when the id was new |
| Profiles.EditProfile | Richify/src/renderer/components/ProfileManager.tsx:95-97 | editing only sets the profile being edited |
| Profiles.ReplaceById | Richify/src/renderer/components/ProfileManager.tsx:102-104 | same length; each profile with the edited id becomes the edited profile, the others are unchanged |
| Profiles.SaveEdit | Richify/src/renderer/components/ProfileManager.tsx:99-107 | a no-op with nothing being edited; otherwise replaces by id and stops editing |
| Profiles.SaveEditReplaces | Richify/src/renderer/components/ProfileManager.tsx:99-107 | after saving an edit the matching profiles are the edited one and the others are untouched; saving it again changes nothing |
| Profiles.SaveEditKeepsIds | Richify/src/renderer/components/ProfileManager.tsx:102-104 | saving an edit keeps every id in place |
| ErrorDisplay.GetErrorSolutions | Richify/src/renderer/components/ErrorDisplay.tsx:42-111 | every list has three or four entries, and the first, the diagnosis, has no button |
| ErrorDisplay.CommonSolutions | Richify/src/renderer/components/ErrorDisplay.tsx:44-66 | the two common entries in order; the first opens Discord, and the refresh entry has a button exactly when a retry callback is given |
| ErrorDisplay.DiscordErrors | Richify/src/renderer/components/ErrorDisplay.tsx:69-78 | a message containing `discord` in any case gets the Discord entries, even when it also contains `connection` |
| ErrorDisplay.ConnectionErrors | Richify/src/renderer/components/ErrorDisplay.tsx:80-89 | otherwise a message containing `connection` gets the connection entries |
| ErrorDisplay.OtherErrors | Richify/src/renderer/components/ErrorDisplay.tsx:92-110 | any other message gets four entries, from the unexpected error to the help entry, which opens the documentation |
| ErrorDisplay.SolutionsShape | Richify/src/renderer/components/ErrorDisplay.tsx:42-111 | every list has three or four entries; the first has no button; the common entries follow in order; there are four exactly in the default case |
| ErrorDisplay.RetryOnlyWhenGiven | Richify/src/renderer/components/ErrorDisplay.tsx:61-64 | only the refresh entry can call the retry callback, and only when it is given |
| ErrorDisplay.Titles | Richify/src/renderer/components/ErrorDisplay.tsx:42-111 | the titles of a list, in order |
| ImageLibrary.Categories | Richify/src/renderer/components/ImageLibrary.tsx:45 | `all` comes first, and every image's category is among the rest |
| ImageLibrary.CategoriesShape | Richify/src/renderer/components/ImageLibrary.tsx:45 | `all` first, then each image category exactly once, in first-occurrence order |
| ImageLibrary.DefaultCategories | Richify/src/renderer/components/ImageLibrary.tsx:33-45 | the default library offers `all`, `Apps`, `Games` and `Media` |
| ImageLibrary.CategoryList | Richify/src/renderer/components/ImageLibrary.tsx:45 | one category per image, in order |
| ImageLibrary.Distinct | Richify/src/renderer/components/ImageLibrary.tsx:45 | `[...new Set(s)]` holds the same values as `s`, each once |
| ImageLibrary.DistinctInFirstOccurrenceOrder | Richify/src/renderer/components/ImageLibrary.tsx:45 | the distinct values come in the order of their first occurrences |
| ImageLibrary.DistinctOfDistinct | Richify/src/renderer/components/ImageLibrary.tsx:45 | a list without repeats keeps all its values, in order |
| ImageLibrary.FirstIndex | Richify/src/renderer/components/ImageLibrary.tsx:45 | the position of the first occurrence of a value |
| ImageLibrary.FirstIndexOfPrefix | Richify/src/renderer/components/ImageLibrary.tsx:45 | appending keeps the first occurrence of a value already present |
| ImageLibrary.OrderAfterAppend | Richify/src/renderer/components/ImageLibrary.tsx:45 | appending keeps the first-occurrence order and puts a new value last |
| ImageLibrary.Shown | Richify/src/renderer/components/ImageLibrary.tsx:47-51 | a search term longer than the name, or a category other than `all` and the image's own, hides the image |
| ImageLibrary.FilteredImages | Richify/src/renderer/components/ImageLibrary.tsx:47-51 | the filter never shows more images than there are |
| ImageLibrary.FilteredImagesShown | Richify/src/renderer/components/ImageLibrary.tsx:47-51 | an image is kept exactly when its name contains the search term ignoring case and the category is `all` or its own |
| ImageLibrary.FilteredImagesAppend | Richify/src/renderer/components/ImageLibrary.tsx:47 | the filter keeps the order of the images |
| ImageLibrary.EmptySearchShowsAll | Richify/src/renderer/components/ImageLibrary.tsx:47-51 | an empty search in `all` shows every image |
| ImageLibrary.Upload | Richify/src/renderer/components/ImageLibrary.tsx:53-70 | no file changes nothing; otherwise exactly one image is appended, with the derived key and name, the object URL and the `Custom` category |
| ImageLibrary.UploadShownAsCustom | Richify/src/renderer/components/ImageLibrary.tsx:45-65 | after an upload `Custom` is a category and the new image is shown under it |
| ImageLibrary.UploadKey | Richify/src/renderer/components/ImageLibrary.tsx:60 | a key holds no whitespace, and a name without whitespace is only lower-cased |
| ImageLibrary.UploadKeyNormal | Richify/src/renderer/components/ImageLibrary.tsx:60 | a key has no whitespace and no upper-case letter, and the key of a key is itself |
| ImageLibrary.DashWhitespace | Richify/src/renderer/components/ImageLibrary.tsx:60 | the result has no whitespace, keeps a string without whitespace unchanged, and adds only `-` |
| ImageLibrary.DashWhitespaceRun | Richify/src/renderer/components/ImageLibrary.tsx:60 | a run of whitespace between whitespace-free text and text not starting with whitespace becomes exactly one `-`, in place |
| ImageLibrary.DashWhitespaceLead | Richify/src/renderer/components/ImageLibrary.tsx:60 | a leading run of whitespace becomes one `-` |
| ImageLibrary.DashWhitespaceCons | Richify/src/renderer/components/ImageLibrary.tsx:60 | a character other than whitespace is copied as it is |
| ImageLibrary.DropWhitespace | Richify/src/renderer/components/ImageLibrary.tsx:60 | drops a leading run of whitespace and nothing else |
| ImageLibrary.DropWhitespaceRun | Richify/src/renderer/components/ImageLibrary.tsx:60 | dropping a run of whitespace before text that does not start with whitespace leaves that text |
| ImageLibrary.UploadName | Richify/src/renderer/components/ImageLibrary.tsx:62 | the name is a prefix of the file name; when shorter, a `.` follows it and the non-empty rest holds no `.` and no `/` |
| ImageLibrary.UploadNameStripsExtension | Richify/src/renderer/components/ImageLibrary.tsx:62 | the name of `base.ext` is `base`, and a name without a dot is kept |
| JsString.Trim | Richify/src/main/applications.ts:26 | no longer than the input, no whitespace at either end, and a string without whitespace at its ends is kept whole |
| JsString.TrimEmptyIff | Richify/src/main/applications.ts:26 | a string trims to empty exactly when it is all whitespace |
| JsString.ToLower | Richify/src/main/services/image-upload.ts:102 | same length, each character lower-cased |
| JsString.Split | Richify/src/main/process-manager.ts:83-87 | `split` gives at least one piece, and no piece holds the separator |
| JsString.SplitManyIff | Richify/src/main/services/image-upload.ts:25 | a string splits into more than one piece exactly when it holds the separator |
| JsString.SplitJoin | Richify/src/main/process-manager.ts:83 | joining the pieces with the separator gives back the string |
| JsString.SplitConcat | Richify/src/main/process-manager.ts:83 | splitting two strings joined by the separator is splitting each one |
| JsString.NatToStringRoundTrip | Richify/src/main/process-manager.ts:59 | the decimal text of an index reads back as that index |
| JsString.NatToStringInjective | Richify/src/main/process-manager.ts:59 | different indices have different decimal texts |
| JsPath.Basename | Richify/src/main/process-manager.ts:99 | the base name holds no separator |
| JsPath.Extname | Richify/src/main/services/image-upload.ts:102 | the extension is empty or starts with `.`, and holds no separator |
| JsPath.NameWithoutExtension | Richify/src/main/process-manager.ts:99 | a prefix of the base name, without separators |
| JsPath.NameAndExtension | Richify/src/main/process-manager.ts:99 | the base name is the name without the extension followed by the extension |
| JsPath.ExtnameLower | Richify/src/main/services/image-upload.ts:102 | the extension of a lower-cased path is the lower-cased extension |

## Left out

- Concurrency: each handler, `await` continuation and timer callback is one atomic step, so no interleaving inside a handler is modelled. Console logging is left out.
- The `discord-rpc` library, the PowerShell and `tasklist` commands, the Imgur HTTP request, JSON parsing, `fs`, base64 encoding, `Date.now()` and `URL.createObjectURL` are inputs, as the table above the model says. Their wire formats are not modelled.
- A `null` or `undefined` presence from the renderer is not modelled: `DiscordRpc.PresenceData` is always a record. In the source, `presenceData.details` then throws a `TypeError` inside `updatePresence` (discord-rpc.ts:125-127), and the `UPDATE_PRESENCE` handler replies with a failure and calls `attemptReconnect` (discord-rpc.ts:39-46).
- Disconnected events from a client that was already replaced are not modelled; the managers only handle events of their current client.
- `localeCompare` is modelled as code-unit lexicographic order, and `toLowerCase` only lower-cases ASCII letters. Locale collation and Unicode case mapping are left out.
- Applications.SortByName: it is proved to be a sorted permutation, but not to be stable as the JavaScript sort is.
- `path.basename` and `path.extname` follow the win32 rules for drive letters, separators and dots. UNC roots are not modelled.
- `path.join` is modelled by `ProcessManager.JoinPath`, which puts one backslash between the directory and the file name; its other normalisation is left out.
- The `catch` branch of `getAppIcon` (process-manager.ts:114-117) is not modelled, since nothing in the modelled `try` block throws. The same holds for the `catch` of the `GET_APP_ICON` handler.
- `SELECT_APPLICATION` and `DISCONNECT_RPC` in index.ts only log a message, so they have no model.
- The window bootstrapping in index.ts and main.ts is not part of this model.
- The contextBridge proxying of arguments in the preload bridge is not modelled; a renderer function is an opaque handle.
- ProfileManager.tsx: the `localStorage` persistence, the text-field change handlers and `onSelectProfile` are presentation or browser storage and are not modelled. Profile ids come from `Date.now()`, modelled as the `now` parameter.
- The React rendering of every component is left out.
- ErrorDisplay.tsx: the icons' colours and the `onClick` handlers are not modelled; a button's effect is named by what it does.

## Findings

| source | as written | input that shows it | evidently intended | confidence | as-written member | corrected member |
|---|---|---|---|---|---|---|
| Richify/src/preload/index.ts:40-58 | `on` registers a wrapper closure around `func`, but `removeListener` asks Electron to remove `func` itself, which was never registered | `on("PRESENCE_UPDATED", f)` then `removeListener("PRESENCE_UPDATED", f)`; a later `PRESENCE_UPDATED` message still calls `f` | `removeListener` removes the listener that `on` registered for `func` | not executed | Preload.RemoveListener, Preload.RemoveListenerLeavesWrapper, Preload.RemoveListenerCounterexample | Preload.RemoveListenerFixed, Preload.RemoveListenerFixedUndoesOn, Preload.RemoveListenerFixedStopsCalls |
