# Accident detection dashboard: a Dafny model

This project models the sequential rules of TRAFCCON360, an accident-detection system.
Its parts are:

- **Backend.** A NestJS backend stores accident reports in MongoDB and broadcasts them over Socket.IO. Reports reach it through a REST controller, an image upload and MQTT messages from ESP32 cameras.
- **ML service.** A FastAPI service runs a YOLO model on each image and returns an accident verdict. The backend merges that verdict into the stored report.
- **Dashboards.** A React dashboard keeps a live list of reports. A standalone dashboard server (Python) lists saved detection images, and its page (plain JavaScript) shows the signal lamps and the accident alert banner.
- **Login.** The police login looks up fixed credentials.

The stateful parts are modelled as Dafny classes:

- The service keeps a map from id to document, an id counter and the gateway.
- The gateway keeps a counter, rooms and an outbox of emitted events.
- The page keeps its module-level variables, with the four lamps in an array.

Everything else is pure functions over datatypes. Each operation is proved against a specification function or a stated property. Lemmas connect them, for example:

- Decoding the uploaded image's base64 gives the file back.
- A listing is the newest-first prefix of the matching documents.
- The ML merge restores the creation-time severity.
- At most one lamp is lit.

Modules, one per file: `Wrappers`, `Text`, `Sequences` and `Base64` are shared helpers. The rest follow the program:

- `AccidentSchema`, `AccidentDto`, `AccidentStore`, `Gateway`, `Service`, `Controller` and `Mqtt` model the backend.
- `MlService` models the ML service.
- `History` models the dashboard server.
- `Signals` models the dashboard page.
- `Feed` models the React list.
- `Auth` models the login.

## Model

| member | source | states |
|---|---|---|
| AccidentSchema.ParseSeverity | Accident_detection_2/Dashboard/backend-nest/src/accident/accident.schema.ts:17-18 | a severity is accepted iff it is one of low, medium, high, critical, and names that value |
| AccidentSchema.ParseSeverityName | Accident_detection_2/Dashboard/backend-nest/src/accident/accident.schema.ts:17-18 | reading back the name of any severity gives that severity |
| AccidentSchema.ParseStatus | Accident_detection_2/Dashboard/backend-nest/src/accident/accident.schema.ts:32-33 | a status is accepted iff it is one of pending, dispatched, resolved |
| AccidentSchema.ParseStatusName | Accident_detection_2/Dashboard/backend-nest/src/accident/accident.schema.ts:32-33 | reading back the name of any status gives that status |
| AccidentSchema.InvalidPaths | Accident_detection_2/Dashboard/backend-nest/src/accident/accident.schema.ts:8-18 | a path fails validation iff it is a required string left empty or a severity outside the enumeration |
| AccidentSchema.NewDocument | Accident_detection_2/Dashboard/backend-nest/src/accident/accident.schema.ts:8-33 | saving fails exactly when some path is invalid; a saved document is well formed, pending, unverified, has no ML confidence or address, and keeps the given id, time, image, gps, device and severity |
| AccidentDto.ToCreateDto | Accident_detection_2/Dashboard/backend-nest/src/accident/accident.dto.ts:3-20 | a body passes iff image and gps are strings, a severity present is in the enumeration, a device id present is a string and a confidence present is a number; every present field is carried over with its value, and absent ones stay absent |
| AccidentDto.ToUpdateDto | Accident_detection_2/Dashboard/backend-nest/src/accident/accident.dto.ts:22-38 | an update passes iff each present field has its enumeration or type; present fields are carried over, absent ones stay absent |
| AccidentDto.EmptyUpdateIsValid | Accident_detection_2/Dashboard/backend-nest/src/accident/accident.dto.ts:22-38 | the empty update is valid and changes no field |
| AccidentStore.ListedCount | Accident_detection_2/Dashboard/backend-nest/src/accident/accident.service.ts:129-141 | filtering the id-ordered listing counts exactly the stored documents that satisfy the query |
| AccidentStore.ListedAll | Accident_detection_2/Dashboard/backend-nest/src/accident/accident.service.ts:129 | the listing holds one entry per stored document |
| AccidentStore.ListedComplete | Accident_detection_2/Dashboard/backend-nest/src/accident/accident.service.ts:96 | every stored document below the id counter appears in the collection scan `find` starts from |
| AccidentStore.ListedOrdered | Accident_detection_2/Dashboard/backend-nest/src/accident/accident.service.ts:96 | the collection scan visits documents in increasing id (insertion) order |
| AccidentStore.EffectiveLimit | Accident_detection_2/Dashboard/backend-nest/src/accident/accident.service.ts:98 | a missing or zero limit means 100; a positive limit is used as given; the limit is always positive |
| AccidentStore.FindAll | Accident_detection_2/Dashboard/backend-nest/src/accident/accident.service.ts:91-99 | every result is a stored document matching the non-empty filters, and none appears more often than among the matches; results are newest first; their number is the smaller of the limit and the number of matches |
| AccidentStore.FindAllDistinctIds | Accident_detection_2/Dashboard/backend-nest/src/accident/accident.service.ts:95-99 | over a listing in increasing id order, no document is returned twice |
| AccidentStore.FindAllOverStore | Accident_detection_2/Dashboard/backend-nest/src/accident/accident.service.ts:91-99 | over a consistent store: stored matching documents, as many as the limit allows of all matches, none twice, none left out newer than one returned |
| AccidentStore.FindAllKeepsNewest | Accident_detection_2/Dashboard/backend-nest/src/accident/accident.service.ts:95-98 | a matching document the capped listing leaves out is no newer than any document it returns |
| AccidentStore.FindAllNewestFirst | Accident_detection_2/Dashboard/backend-nest/src/accident/accident.service.ts:95-99 | no matching document left out is newer than one returned |
| AccidentStore.FindAllUnfiltered | Accident_detection_2/Dashboard/backend-nest/src/accident/accident.service.ts:91-99 | with no filters and room for all, every document is returned |
| AccidentStore.ApplyUpdate | Accident_detection_2/Dashboard/backend-nest/src/accident/accident.service.ts:116-118 | the update's present fields replace the stored ones; every other field keeps its value |
| AccidentStore.ApplyEmptyUpdate | Accident_detection_2/Dashboard/backend-nest/src/accident/accident.service.ts:116-118 | an empty update leaves the document as it was |
| AccidentStore.ApplyUpdateIdempotent | Accident_detection_2/Dashboard/backend-nest/src/accident/accident.service.ts:116-118 | applying an update twice equals applying it once |
| AccidentStore.ApplyVerdict | Accident_detection_2/Dashboard/backend-nest/src/accident/accident.service.ts:61-67 | verified and confidence come from the reply; the severity from the reply when given, else from the document as created; nothing else changes |
| AccidentStore.VerdictRestoresSnapshotSeverity | Accident_detection_2/Dashboard/backend-nest/src/accident/accident.service.ts:63-67 | a severity changed by an update after creation is overwritten by the creation-time one when the reply carries none |
| AccidentStore.LocalMidnight | Accident_detection_2/Dashboard/backend-nest/src/accident/accident.service.ts:137-138 | the result is the start of the local day containing now |
| AccidentStore.ComputeStats | Accident_detection_2/Dashboard/backend-nest/src/accident/accident.service.ts:128-144 | the total is the number of documents; every count is at most the total; critical plus high is at most the total |
| Gateway.SeverityRoom | Accident_detection_2/Dashboard/backend-nest/src/gateway/events.gateway.ts:70 | the room name is `severity-` followed by the severity |
| Gateway.EventsGateway.constructor | Accident_detection_2/Dashboard/backend-nest/src/gateway/events.gateway.ts:23 | no clients, rooms or emissions at start |
| Gateway.EventsGateway.HandleConnection | Accident_detection_2/Dashboard/backend-nest/src/gateway/events.gateway.ts:29-34 | the counter rises by one and stays equal to connections minus disconnections |
| Gateway.EventsGateway.HandleDisconnect | Accident_detection_2/Dashboard/backend-nest/src/gateway/events.gateway.ts:36-41 | the counter falls by one, with no lower bound, and stays equal to connections minus disconnections |
| Gateway.EventsGateway.EmitAccident | Accident_detection_2/Dashboard/backend-nest/src/gateway/events.gateway.ts:46-52 | one `new-accident` emission tagged `new` carrying the document is appended; counter and rooms unchanged |
| Gateway.EventsGateway.EmitAccidentUpdate | Accident_detection_2/Dashboard/backend-nest/src/gateway/events.gateway.ts:57-63 | one `accident-update` emission tagged `update` is appended; counter and rooms unchanged |
| Gateway.EventsGateway.HandleSubscribeSeverity | Accident_detection_2/Dashboard/backend-nest/src/gateway/events.gateway.ts:68-73 | acknowledges `subscribed` with the severity; the client's rooms become its earlier rooms (none for a first subscription) plus exactly the severity room; other clients' rooms are unchanged and no other client is added |
| Gateway.EventsGateway.HandlePing | Accident_detection_2/Dashboard/backend-nest/src/gateway/events.gateway.ts:78-81 | answers `pong` with the current time |
| Service.SeverityOrDefault | Accident_detection_2/Dashboard/backend-nest/src/accident/accident.service.ts:29 | a non-empty severity is kept, otherwise `medium` |
| Service.AccidentService.constructor | Accident_detection_2/Dashboard/backend-nest/src/accident/accident.service.ts:15-19 | an empty, consistent store |
| Service.AccidentService.All | Accident_detection_2/Dashboard/backend-nest/src/accident/accident.service.ts:96 | lists every stored document exactly once, in increasing id order |
| Service.AccidentService.Create | Accident_detection_2/Dashboard/backend-nest/src/accident/accident.service.ts:24-45 | the saved document has the defaulted severity and the current time; on success it is stored under a fresh id and exactly one `new-accident` emission follows; a rejected document changes nothing |
| Service.AccidentService.VerifyWithML | Accident_detection_2/Dashboard/backend-nest/src/accident/accident.service.ts:50-81 | a failed or late reply, or a vanished document, changes nothing and emits nothing; otherwise the merge is stored and exactly one update emission carries it |
| Service.AccidentService.FindAll | Accident_detection_2/Dashboard/backend-nest/src/accident/accident.service.ts:86-100 | stored matching documents, newest first, as many as the limit allows of all matches, no document twice, and none newer left out |
| Service.AccidentService.FindById | Accident_detection_2/Dashboard/backend-nest/src/accident/accident.service.ts:105-107 | the stored document iff the id is present |
| Service.AccidentService.Update | Accident_detection_2/Dashboard/backend-nest/src/accident/accident.service.ts:112-123 | an unknown id yields nothing and changes nothing; otherwise only that document is merged, returned and broadcast once |
| Service.AccidentService.GetStats | Accident_detection_2/Dashboard/backend-nest/src/accident/accident.service.ts:128-144 | each count is the number of stored documents meeting its condition (critical, high, pending, created since local midnight); critical plus high and every count are at most the total |
| Controller.ParseIntNumeral | Accident_detection_2/Dashboard/backend-nest/src/accident/accident.controller.ts:34 | a decimal numeral, optionally signed and followed by non-digits, parses to its value |
| Controller.ParseIntSkipsSpace | Accident_detection_2/Dashboard/backend-nest/src/accident/accident.controller.ts:34 | leading white space does not change the parse |
| Controller.ParseIntNaN | Accident_detection_2/Dashboard/backend-nest/src/accident/accident.controller.ts:34 | text with no digit parses to no number |
| Controller.QueryFilter | Accident_detection_2/Dashboard/backend-nest/src/accident/accident.controller.ts:25-36 | severity and status pass unchanged; the limit is parsed only when non-empty |
| Controller.DefaultLimit | Accident_detection_2/Dashboard/backend-nest/src/accident/accident.controller.ts:34 | an absent, empty, zero or non-numeric limit ends at 100 |
| Controller.NumeralLimit | Accident_detection_2/Dashboard/backend-nest/src/accident/accident.controller.ts:34 | a positive numeral limit is used as written |
| Controller.UploadRequest | Accident_detection_2/Dashboard/backend-nest/src/accident/accident.controller.ts:76-82 | decoding the request's image gives the uploaded bytes; gps defaults to `0,0`, severity to `medium`; the device id passes through |
| Controller.CreatedResponse | Accident_detection_2/Dashboard/backend-nest/src/accident/accident.controller.ts:58-62 | status 201 with the document iff it was saved, otherwise 500 |
| Controller.AccidentController.constructor | Accident_detection_2/Dashboard/backend-nest/src/accident/accident.controller.ts:19 | wraps the given service |
| Controller.AccidentController.FindAll | Accident_detection_2/Dashboard/backend-nest/src/accident/accident.controller.ts:25-36 | the service listing for the parsed query |
| Controller.AccidentController.GetStats | Accident_detection_2/Dashboard/backend-nest/src/accident/accident.controller.ts:41-44 | the service statistics |
| Controller.AccidentController.FindById | Accident_detection_2/Dashboard/backend-nest/src/accident/accident.controller.ts:49-52 | the stored document, or nothing for an unknown id |
| Controller.AccidentController.Create | Accident_detection_2/Dashboard/backend-nest/src/accident/accident.controller.ts:58-62 | an invalid body gets 400 and changes nothing; otherwise the service's create: 201 stores the document under the next id, advances the counter by one and broadcasts it once; 500 changes nothing |
| Controller.AccidentController.UploadImage | Accident_detection_2/Dashboard/backend-nest/src/accident/accident.controller.ts:68-83 | no file or a store refusal gives 500 and no change; 201 stores the defaulted document under the next id, advances the counter by one and broadcasts it once, and the stored image decodes to the uploaded bytes |
| Controller.AccidentController.Update | Accident_detection_2/Dashboard/backend-nest/src/accident/accident.controller.ts:89-92 | an invalid body gets 400; an unknown id gets 200 with no body and no change; otherwise the merged document is stored, returned with 200 and broadcast once, and the counter is kept |
| Mqtt.OrDefault | Accident_detection_2/Dashboard/backend-nest/src/mqtt/mqtt.service.ts:68-70 | a non-empty value is kept, otherwise the default |
| Mqtt.HandleMessage | Accident_detection_2/Dashboard/backend-nest/src/mqtt/mqtt.service.ts:56-74 | no request iff both image fields are absent or empty; `image` wins over `imageBase64`; gps, severity and device default to `0,0`, `medium`, `unknown-esp32` |
| Mqtt.HandleMessageKeepsGivenFields | Accident_detection_2/Dashboard/backend-nest/src/mqtt/mqtt.service.ts:66-71 | fields that are present and non-empty reach the request unchanged |
| Mqtt.MessageRefusedOnlyForSeverity | Accident_detection_2/Dashboard/backend-nest/src/mqtt/mqtt.service.ts:66-71 | an accepted message's create fails iff its severity is outside the enumeration |
| Mqtt.MqttService.constructor | Accident_detection_2/Dashboard/backend-nest/src/mqtt/mqtt.service.ts:13 | wraps the given service |
| Mqtt.MqttService.OnMessage | Accident_detection_2/Dashboard/backend-nest/src/mqtt/mqtt.service.ts:35-41 | an unparsable or imageless message, or one whose create fails, changes nothing; otherwise exactly one create, which stores the document under the old counter, advances the counter and emits once; a failure is reported, not raised |
| MlService.ClassifyBands | Accident_detection_2/Dashboard/fastapi-ml/main.py:104-112 | critical iff at least 0.85, high in [0.65, 0.85), medium in [0.45, 0.65), low below 0.45 |
| MlService.ClassifyMonotone | Accident_detection_2/Dashboard/fastapi-ml/main.py:104-112 | a higher confidence never yields a lower severity |
| MlService.StripDataUrlPrefix | Accident_detection_2/Dashboard/fastapi-ml/main.py:118-119 | comma-free text is unchanged; otherwise the result is what follows the first comma |
| MlService.StripDataUrl | Accident_detection_2/Dashboard/fastapi-ml/main.py:118-119 | the payload of a data URL whose header has no comma is recovered exactly |
| MlService.DecodeImage | Accident_detection_2/Dashboard/fastapi-ml/main.py:115-121 | succeeds iff the stripped text decodes to an image, and then returns those bytes |
| MlService.UploadedImageDecodes | Accident_detection_2/Dashboard/fastapi-ml/main.py:115-121 | the backend's encoding of any bytes, with or without a data-URL header, decodes back to them |
| MlService.MaxConfidenceBounds | Accident_detection_2/Dashboard/fastapi-ml/main.py:168-170 | the maximum bounds every confidence and is attained |
| MlService.AggregateEmpty | Accident_detection_2/Dashboard/fastapi-ml/main.py:137-139 | no boxes: not an accident, confidence 0, severity low |
| MlService.AggregateNonEmpty | Accident_detection_2/Dashboard/fastapi-ml/main.py:161-175 | any box makes it an accident, with the severity banded from the confidence |
| MlService.AggregateIsMax | Accident_detection_2/Dashboard/fastapi-ml/main.py:141-170 | the confidence is the largest box confidence, attained by some box |
| MlService.AnyAccidentClassAppend | Accident_detection_2/Dashboard/fastapi-ml/main.py:161-162 | the accident-class flag after one more box is the old flag or that box's class |
| MlService.ScanBoxes | Accident_detection_2/Dashboard/fastapi-ml/main.py:144-165 | after the inner loop over one result's boxes, the detections are extended by exactly those boxes, and the running maximum and accident flag are those of all detections so far |
| MlService.RunDetection | Accident_detection_2/Dashboard/fastapi-ml/main.py:124-178 | 503 with no model; otherwise the loop's result equals the aggregate of all boxes |
| MlService.DetectAccident | Accident_detection_2/Dashboard/fastapi-ml/main.py:201-221 | undecodable input gives 400; no model gives 503; otherwise the detection with the request's accident id echoed |
| MlService.VerdictOf | Accident_detection_2/Dashboard/fastapi-ml/main.py:172-176 | the backend reads accident flag, confidence and severity from the reply |
| MlService.NoDetectionLowersSeverity | Accident_detection_2/Dashboard/fastapi-ml/main.py:172-176 | an image with no detection is stored as unverified, confidence 0, severity low |
| History.AfterLastSepSuffix | Accident_detection_2/Dashboard/dashboard.py:67 | the base name is a separator-free suffix of the path |
| History.BasenameOfJoin | Accident_detection_2/Dashboard/dashboard.py:60-67 | the base name of a plain file name joined to the folder is that name |
| History.ImagePathEscapesFolder | Accident_detection_2/Dashboard/dashboard.py:105-106 | as written, the request `\D:x.jpg` is served from `D:x.jpg`, outside the folder |
| History.ImagePath | Accident_detection_2/Dashboard/dashboard.py:105-106 | a name still holding a drive colon is refused; any other is the folder prefix plus a separator-free, colon-free name |
| History.DetectionImageAsWritten | Accident_detection_2/Dashboard/dashboard.py:102-109 | as written: the file at the base name joined to the folder is served iff it exists; otherwise not found |
| History.DetectionImageServesOtherDrive | Accident_detection_2/Dashboard/dashboard.py:102-109 | as written, the request `\D:x.jpg` is answered with the file `D:x.jpg` whenever it exists |
| History.DetectionImage | Accident_detection_2/Dashboard/dashboard.py:102-109 | the corrected route (the Findings row): the file is served iff the sanitised path names an existing file, and a served path is always the folder prefix plus a separator-free, colon-free name; otherwise not found |
| History.DetectionImageCorrectsOnlyColons | Accident_detection_2/Dashboard/dashboard.py:102-109 | the corrected route answers exactly as the route as written for every base name without a colon, and refuses the rest |
| History.FirstLaneFirstMatch | Accident_detection_2/Dashboard/dashboard.py:70-75 | `?` when no part starts with `lane`; otherwise the first such part with `lane` removed |
| History.ParseLane | Accident_detection_2/Dashboard/dashboard.py:70-75 | the loop with `break` computes the first-match lane |
| History.LaneOfSavedName | Accident_detection_2/Dashboard/dashboard.py:69-75 | `accident_lane3_20260205_142315_123.jpg` has lane `3` |
| History.Glob | Accident_detection_2/Dashboard/dashboard.py:60 | one joined path per `.jpg` entry, in directory order |
| History.PrefixSlice | Accident_detection_2/Dashboard/dashboard.py:59-63 | a prefix of at most `limit` items, or all but the last |limit| for a negative limit |
| History.GetDetectionHistory | Accident_detection_2/Dashboard/dashboard.py:54-84 | nothing for a missing folder; otherwise one record per selected file, in order |
| History.HistoryRecords | Accident_detection_2/Dashboard/dashboard.py:65-84 | the append loop yields each file's base name, path, lane and time |
| History.HistoryFilesBounded | Accident_detection_2/Dashboard/dashboard.py:59-63 | at most `limit` files, newest first |
| History.HistoryFilesNewest | Accident_detection_2/Dashboard/dashboard.py:59-63 | every file is a `.jpg` of the folder, and none left out is newer than one kept |
| History.HistoryEntryNames | Accident_detection_2/Dashboard/dashboard.py:66-80 | a record's file name is the entry's own name and its lane is parsed from it |
| History.ProxyAccident | Accident_detection_2/Dashboard/dashboard.py:112-120 | the backend's reply, or a no-accident fallback carrying the error |
| Feed.OnNewAccident | Accident_detection_2/Dashboard/frontend-react/src/App.tsx:49-50 | the new accident heads the list and the old list follows |
| Feed.AlertOnlyForHighOrCritical | Accident_detection_2/Dashboard/frontend-react/src/App.tsx:52-54 | the alert sounds iff the severity is at least high |
| Feed.OnAccidentUpdate | Accident_detection_2/Dashboard/frontend-react/src/App.tsx:57-60 | same length; entries with the id become the update, others are unchanged |
| Feed.UpdateUnknownId | Accident_detection_2/Dashboard/frontend-react/src/App.tsx:58-60 | an update for an id not in the list changes nothing |
| Feed.UpdateIdempotent | Accident_detection_2/Dashboard/frontend-react/src/App.tsx:58-60 | receiving an update twice equals receiving it once |
| Feed.UpdateReplacesExactly | Accident_detection_2/Dashboard/frontend-react/src/App.tsx:58-60 | positions and ids are kept; exactly the entries with the id are replaced |
| Feed.FilterAccidents | Accident_detection_2/Dashboard/frontend-react/src/App.tsx:122-125 | an order-preserving subsequence holding exactly the entries the filter admits, each admitted entry as often as the list holds it |
| Feed.FilterAllKeepsEverything | Accident_detection_2/Dashboard/frontend-react/src/App.tsx:122-123 | the filter `all` shows the whole list |
| Feed.FilterAfterNew | Accident_detection_2/Dashboard/frontend-react/src/App.tsx:49-50 | after a new accident, the filtered list gains it in front iff the filter admits it |
| Feed.SeverityColor | Accident_detection_2/Dashboard/frontend-react/src/App.tsx:113-120 | critical, high and medium map to their alert colours; any other name is grey |
| Feed.GreyOnlyForLow | Accident_detection_2/Dashboard/frontend-react/src/App.tsx:113-120 | among the four severities, only low is drawn grey |
| Signals.Pow2Monotone | Accident_detection_2/Dashboard/static/js/dashboard.js:164 | powers of two grow with the exponent |
| Signals.ReconnectDelay | Accident_detection_2/Dashboard/static/js/dashboard.js:164 | the delay is `min(1000 * 2^n, 15000)` milliseconds |
| Signals.ReconnectSchedule | Accident_detection_2/Dashboard/static/js/dashboard.js:164 | the waits are 1, 2, 4 and 8 seconds, then 15 |
| Signals.ReconnectDelayGrows | Accident_detection_2/Dashboard/static/js/dashboard.js:164 | later retries never wait less |
| Signals.ReconnectDelayCapped | Accident_detection_2/Dashboard/static/js/dashboard.js:164 | from the fifth retry on, the delay is 15 seconds |
| Signals.LaneState | Accident_detection_2/Dashboard/static/js/dashboard.js:69 | a missing or empty state is `RED`; any other is upper-cased |
| Signals.OneLampAtMost | Accident_detection_2/Dashboard/static/js/dashboard.js:70-72 | at most one lamp is on, and exactly one iff the state is RED, YELLOW or GREEN |
| Signals.MissingLaneIsRed | Accident_detection_2/Dashboard/static/js/dashboard.js:69-72 | a lane the message leaves out shows red |
| Signals.LowerCaseGreen | Accident_detection_2/Dashboard/static/js/dashboard.js:69-72 | a lower-case `green` lights the green lamp |
| Signals.LaneOfFeed | Accident_detection_2/Dashboard/static/js/dashboard.js:83 | the lane is unknown iff the lane id is missing or zero |
| Signals.SameLaneSuppressed | Accident_detection_2/Dashboard/static/js/dashboard.js:102 | a repeat on the last lane is silent iff at most ten seconds passed since dismissal |
| Signals.FirstAccidentAlerts | Accident_detection_2/Dashboard/static/js/dashboard.js:101-109 | the first accident ever reported raises the banner |
| Signals.FallbackReportsNoAccident | Accident_detection_2/Dashboard/dashboard.py:119-120 | the relay's fallback reports no accident and no lane |
| Signals.SignalDashboard.constructor | Accident_detection_2/Dashboard/static/js/dashboard.js:31-34 | no lane seen, no dismissal, no accident seen, no retries |
| Signals.SignalDashboard.OnOpen | Accident_detection_2/Dashboard/static/js/dashboard.js:137-141 | the retry count resets to zero; the badge reads Connected |
| Signals.SignalDashboard.OnClose | Accident_detection_2/Dashboard/static/js/dashboard.js:161-167 | the delay is computed from the old retry count, which then rises by one; the badge reads Disconnected |
| Signals.SignalDashboard.Dismiss | Accident_detection_2/Dashboard/static/js/dashboard.js:61-64 | the banner is hidden and the dismissal time recorded |
| Signals.SignalDashboard.UpdateSignals | Accident_detection_2/Dashboard/static/js/dashboard.js:67-75 | each of the four lanes shows the state and lamps of its entry |
| Signals.SignalDashboard.UpdateAccident | Accident_detection_2/Dashboard/static/js/dashboard.js:78-118 | no report changes nothing; an accident raises the banner iff the gate allows it, then records the lane and marks an accident seen; a clear report turns the status to Clear only once an accident was seen |
| Signals.SignalDashboard.OnMessage | Accident_detection_2/Dashboard/static/js/dashboard.js:143-159 | an unparsable message changes nothing; otherwise the badge follows the backend flag, the lamps follow the signals when present, and the panel (status, border, banner, alert count, last lane, seen flag) changes exactly as in `UpdateAccident`, or not at all without an accident report |
| Auth.FindUser | Accident_detection_2/Dashboard/backend-nest/src/auth/auth.service.ts:15-17 | a returned account is listed and matches both username and password |
| Auth.FindUserFirst | Accident_detection_2/Dashboard/backend-nest/src/auth/auth.service.ts:15-17 | nothing iff no account matches; otherwise the first match |
| Auth.ValidateUser | Accident_detection_2/Dashboard/backend-nest/src/auth/auth.service.ts:14-23 | some user iff a listed account matches, returned without its password |
| Auth.ListedAccountsValidate | Accident_detection_2/Dashboard/backend-nest/src/auth/auth.service.ts:5-8 | each listed account logs in with its own password |
| Auth.CrossedPasswordRefused | Accident_detection_2/Dashboard/backend-nest/src/auth/auth.service.ts:5-8 | a username with another account's password is refused |
| Auth.Login | Accident_detection_2/Dashboard/backend-nest/src/auth/auth.service.ts:25-35 | `Invalid credentials` iff validation fails; otherwise the token signed over id, name and role, and the account without its password |
| Base64.DecodeEncode | Accident_detection_2/Dashboard/backend-nest/src/accident/accident.controller.ts:76 | decoding the base64 encoding of any bytes gives them back |
| Base64.EncodeAlphabet | Accident_detection_2/Dashboard/backend-nest/src/accident/accident.controller.ts:76 | an encoding uses only the alphabet and the pad, so it holds no comma |

## Left out

- Document ids are natural numbers from a counter, not MongoDB ObjectIds. The cast error for a malformed id string is not modelled.
- The `createdAt`/`updatedAt` timestamps of the schema option are not modelled.
- Request bodies are reduced to the fields the validators look at. Extra properties are not modelled.
- A JSON `null` in an update body is treated as an absent field.
- The update's `verified` is not checked by a validator. The model accepts only booleans there, so other JSON values are not modelled.
- AccidentStore.EffectiveLimit: a negative limit is taken as its magnitude. The rest of the cursor's limit semantics are left out.
- Service.AccidentService.VerifyWithML: the reply is an input (`MlOutcome`): failed, or answered after some milliseconds. The HTTP call, its 15 000 ms timeout and the interleaving with other requests are not modelled. The model starts from the state after `create` has returned.
- Service.AccidentService.GetStats: local midnight is computed for a fixed offset from UTC. Daylight-saving changes and time-zone databases are left out.
- Gateway.EventsGateway.HandleDisconnect: the rooms a client joined are not cleared when it leaves. Socket.IO transport and delivery are left out.
- MlService.RunDetection: YOLO inference is replaced by its result list. `round(…, 4)` and `processing_time_ms` are left out. The no-accident-class maximum is taken over unrounded confidences. Box coordinates are not modelled.
- MlService.DecodeImage: whether bytes form an image (PIL) is the `isImage` parameter. Python's lenient base64 decoding is approximated: characters outside the alphabet are discarded, then the rest is decoded strictly. The exception text in the 400 detail is not modelled.
- The `/detect-upload` route is not modelled, because it works on an uploaded file that PIL opens.
- The MQTT client connection, subscription and reconnect options are not modelled. Fields that are not strings in an MQTT payload are not modelled.
- History: paths follow Windows rules, the platform of the configured output folder. UNC shares are not modelled.
- Case-insensitive matching uses ASCII case mapping only. This covers `.jpg` in `glob`, drive letters, and the `cls_name.lower()` of MlService.IsAccidentClass, where Python lowers the full Unicode range.
- Controller.ParseInt: the result is an exact integer. JavaScript's `parseInt` yields a Number, so a numeral beyond 2^53 rounds and a very long one becomes `Infinity`; neither is modelled.
- Directory listing, `isdir`, `isfile` and modification times are inputs. Formatted times are left out.
- The dashboard server's other HTTP proxies and its WebSocket relay loop are I/O and are not modelled.
- Signals.LaneState: `toUpperCase` is modelled for ASCII letters only.
- Signals.SignalDashboard.UpdateSignals: lane states are strings. In the page, a non-string state makes `toUpperCase` throw, and the `catch` then skips the remaining lamps and the accident panel. That path is not modelled.
- Signals.SignalDashboard.constructor: the lamps start with an empty state and no lamp lit. The page's initial lamp markup lives in the HTML, which is not part of this model.
- The page's `updateEmergency`, clock, audio, images, confidence bar, history grid and lightbox are DOM effects and are not modelled. The alert sound is counted as `alertsPlayed`.
- The React dashboard's initial loads, `parseGPS`, the map and the audio beep are not modelled.
- Auth.Login: `jwtService.sign` is the parameter `sign`. The passport guard is not modelled.

## Findings

| source | as written | input that shows it | evidently intended | confidence | as-written member | corrected member |
|---|---|---|---|---|---|---|
| Accident_detection_2/Dashboard/dashboard.py:105-106 | the base name of the requested file is joined to the output folder; on Windows a base name that starts with another drive (`D:x.jpg`) makes `os.path.join` drop the folder | the request `\D:x.jpg`: its base name is `D:x.jpg`, joining it to `C:\…` gives `D:x.jpg`, and that file is served | only files inside the output folder are served | medium, not executed | History.DetectionImageServesOtherDrive | History.DetectionImage |
