# EcoClassify client and upload checks, modelled in Dafny

This project models the two pieces of sequential logic in the waste
classifier: the browser client's page state and the backend's request checks.

- **Browser client** (`frontend/js/script.js`), in `client.dfy` and `history.dfy`.
  The page keeps its state in global variables: the staged upload
  (`currentFile`), the webcam and live-detection camera streams, the
  live-detection timer, and the classification history with its copy in
  local storage. Event handlers change these variables. `Client.ClientState`
  holds the same state as fields, with one method per handler. Its `Valid()`
  invariant ties each button's enabled state to the stream or file it
  controls. It also says that a camera stream is held only on its own tab,
  so at most one camera session exists at a time. It further says that no granted camera stream is leaked and that
  the persisted history mirrors the one in memory. The meaning of the
  history list is given as pure functions in module `History`. The list is
  newest first, at most ten entries, and only the oldest entry drops out.
  The lemmas in that module cover any run of additions.
- **Upload checks** (`backend/app.py`), in `upload_validation.dfy`.
  `allowed_file` becomes `AllowedFile`: take the text after the last '.',
  lower-case it, and test it against png, jpg and jpeg. The chain of early
  returns at the head of the `/predict` handler becomes `CheckUpload`. Each
  failing check gives its own 400 response, in the source's order. Only an
  accepted request goes on to be saved and classified.
- `wrappers.dfy` holds the `Option` type, which stands in for `null`/`None`.

Browser services are inputs to the methods:
- what `getUserMedia` grants, either a fresh stream or `None` when permission or hardware fails;
- the `/predict` response, `None` when the request failed;
- the answer to `confirm()`;
- the `Date.now()` id and display timestamp;
- the `setInterval` id.

A disabled button dispatches no click, and a button on a hidden tab cannot be
clicked. So each button handler begins with that button's enabled test, and
each camera start handler also tests that its tab is the one shown
(`activeTab`). These are the only guards the page has against starting a
camera twice, holding both cameras at once, or capturing without a stream.

The page-unload handler (`frontend/js/script.js:508-511`) makes the same two
stop calls as the tab-switch handler. `SwitchTab` models both; for unload the
tab it records no longer matters.

Two behaviours of the code worth noting:
- A camera session is refused only through the disabled start button. The code has no explicit "already active" check.
- `stopLiveDetection` resets the live label only when a live stream was held. `stopWebcam` likewise resets its buttons only when a webcam stream was held. Under `Valid()` the buttons already show the idle state in the other case.

## Model

| member | source | states |
|---|---|---|
| `UploadValidation.LastIndexOf` | backend/app.py:31 | The result is absent exactly when the character does not occur. Otherwise it is an index holding that character, with no occurrence after it. |
| `UploadValidation.Extension` | backend/app.py:31 | Absent exactly when the name has no '.'. Otherwise it is the suffix that follows a '.' and contains no '.': the text after the last '.'. |
| `UploadValidation.ExtensionAfterLastDot` | backend/app.py:31 | A '.' with no '.' after it is the last one: the extension is exactly the text after it. |
| `UploadValidation.AllowedFile` | backend/app.py:29-31 | Every accepted name contains a '.'. |
| `UploadValidation.AllowedFileMeaning` | backend/app.py:31 | A name is accepted iff some '.' in it has no '.' after it and the lower-cased text after that '.' is in {png, jpg, jpeg}. |
| `UploadValidation.NoDotRefused` | backend/app.py:31 | A name without '.' is refused. |
| `UploadValidation.AllowedFileByLastSegment` | backend/app.py:31 | For any stem and any dot-free ext, stem + "." + ext is accepted iff lower(ext) is png, jpg or jpeg. The stem is never consulted. |
| `UploadValidation.LastDotIgnoresCase` | backend/app.py:31 | Lower-casing a name leaves the position of its last '.' unchanged. |
| `UploadValidation.AllowedFileIgnoresCase` | backend/app.py:31 | Lower-casing the whole name never changes the verdict. |
| `UploadValidation.DoubleExtensionAccepted` | backend/app.py:31 | "photo.tar.png" is accepted. |
| `UploadValidation.AllowedWordInStemRefused` | backend/app.py:31 | "png.exe" is refused. |
| `UploadValidation.UpperCaseExtensionAccepted` | backend/app.py:31 | "IMG.JPG" is accepted. |
| `UploadValidation.TrailingDotRefused` | backend/app.py:13 | "a." has an empty extension and is refused. |
| `UploadValidation.CheckUpload` | backend/app.py:47-59 | Every rejection has status 400. No file part gives "No file uploaded", whatever else holds. An empty name gives "No file selected". A non-empty name that fails the whitelist gives "Invalid file type…", and that is the only case that does. A request is accepted, carrying its filename, iff the part exists and its name passes `AllowedFile`. |
| `UploadValidation.EmptyNameReportedBeforeExtension` | backend/app.py:53-59 | The empty name would also fail the extension test. It is still reported as "No file selected", because that check comes first. |
| `History.Window` | frontend/js/script.js:91-93 | The result is a prefix of the list, at most 10 long. It is the list itself when the list has at most 10 entries. |
| `History.Added` | frontend/js/script.js:90-93 | The new entry is at index 0. Earlier entries follow it, shifted by one and in their old order. The length is old length + 1, capped at 10. |
| `History.AddedDropsOnlyOldest` | frontend/js/script.js:90-93 | Below capacity nothing is dropped. At capacity exactly the oldest entry is dropped. A longer (loaded) history keeps only its first nine entries behind the new one. |
| `History.NewestFirst` | frontend/js/script.js:90 | The entries in reverse order of addition. |
| `History.WindowOfCons` | frontend/js/script.js:90-93 | Cutting to 10 before or after prepending an entry gives the same list. |
| `History.AddAllIsRecentWindow` | frontend/js/script.js:81-97 | After any non-empty run of additions to any history, or an empty run to one of at most 10 entries, the history is the first 10 of (new entries, newest first) followed by the old history. |
| `History.AddAllBounded` | frontend/js/script.js:90-93 | After at least one addition the length is at most 10, and the last entry added is first. |
| `History.AddedKeepsIdsDescending` | frontend/js/script.js:82-90 | Suppose each new `Date.now()` id is later than the newest kept. Then the history stays in strictly decreasing id order. |
| `Client.CheckFile` | frontend/js/script.js:186-198 | A file is accepted iff its type is image/jpeg, image/jpg or image/png and its size is ≤ 20·1024·1024. A wrong type is reported first. "Too large" means an allowed type with size > 20 MiB. |
| `Client.SizeLimitBoundary` | frontend/js/script.js:194-198 | Exactly 20 MiB is accepted. One byte more is too large. image/gif is the wrong type. |
| `Client.ClientState.constructor` | frontend/js/script.js:3-7 | Page load. The upload tab is shown, nothing is staged, no stream or timer exists, and no camera stream has been granted. The history is the persisted list if there is one, else empty. The invariant holds. |
| `Client.ClientState.LoadHistory` | frontend/js/script.js:67-73 | Adopts the persisted list when present and otherwise keeps the history. When a persisted list exists, the persisted copy afterwards mirrors memory. |
| `Client.ClientState.SaveHistory` | frontend/js/script.js:76-78 | The persisted copy becomes the in-memory history. |
| `Client.ClientState.AddToHistory` | frontend/js/script.js:81-97 | The new history is `Added` of the old one. Index 0 holds exactly the supplied id and timestamp and the result's class, confidence and uncertainty. The length is ≤ 10. The persisted copy equals the new history. Only the history and its copy change. |
| `Client.ClientState.ClearHistory` | frontend/js/script.js:125-131 | If confirmed, the history and the persisted copy are both empty. If not confirmed, both are unchanged. |
| `Client.ClientState.HandleFileSelect` | frontend/js/script.js:186-203 | An accepted file becomes the staged file and processing is enabled. For a rejected file, the staged file and the process button are unchanged. |
| `Client.ClientState.ChooseFiles` | frontend/js/script.js:158-178 | Only the first chosen or dropped file is examined. An empty selection changes nothing. |
| `Client.ClientState.Reset` | frontend/js/script.js:243-261 | Nothing is staged and processing is disabled. |
| `Client.ClientState.Process` | frontend/js/script.js:214-240 | Without a staged file, nothing changes. A failed response changes nothing, and the file stays staged for a retry. A successful response is added to the history and persisted. |
| `Client.ClientState.StartWebcam` | frontend/js/script.js:334-349 | Off the webcam tab, with a disabled start button, or on a failed camera request, nothing changes. A granted stream is held, start is disabled, and capture and stop are enabled. |
| `Client.ClientState.Capture` | frontend/js/script.js:351-392 | Only when capture is enabled and the response succeeds is the result added to the history and persisted. Otherwise nothing changes. |
| `Client.ClientState.StopWebcam` | frontend/js/script.js:396-408 | Afterwards there is no webcam stream, start is enabled, and capture and stop are disabled. A held stream is released. When no stream was held nothing changes, so a second call is a no-op. |
| `Client.ClientState.StartLive` | frontend/js/script.js:426-449 | Off the live tab, with a disabled button, or on a failed request, nothing changes. A granted stream is held, the timer id is recorded, and start/stop swap their enabled state. |
| `Client.ClientState.StopLive` | frontend/js/script.js:482-500 | Afterwards there is no live stream and no timer, the label is the placeholder, and start is enabled with stop disabled. A held stream is released. When there was no live stream nothing changes, so a second call is a no-op. |
| `Client.ClientState.LiveTick` | frontend/js/script.js:449-479 | Without a live stream, or on a failed response, nothing changes. A successful response only replaces the live label. The history is never touched. |
| `Client.ClientState.SwitchTab` | frontend/js/script.js:137-152 | The chosen tab is shown. Both streams and the live timer are gone. Every camera stream ever granted has been released. |
| `Client.OversizedUploadScenario` | frontend/js/script.js:186-198 | Selecting a 25 MiB JPEG stages nothing and adds no history entry. |
| `Client.UploadScenario` | frontend/js/script.js:263-287 | Staging a 2 MB JPEG and processing a "plastic" response leaves exactly one history entry. That entry has class "plastic" and the supplied id, and the persisted copy equals the history. |
| `Client.StopTwiceScenario` | frontend/js/script.js:394-408 | After starting the webcam and then stopping it twice, the page is idle: start is enabled and capture is disabled. |
| `Client.OneCameraScenario` | frontend/js/script.js:137-152 | With the webcam running, a live start does nothing. Switching to the live tab stops the webcam, so starting live never leaves both streams held. |

## Left out

- Rendering: `updateHistoryDisplay`, `displayResults` and the disposal/fact panels, `displayWebcamResults`, `updateLiveResult`'s upper-casing, the previews, the overlays and the loading spinner. These are presentation only. `Reset` models the staged file and the process button. Hiding the panels is left out.
- JSON text in local storage and the theme toggle. Persistence is modelled as a mirrored list (`stored`), not as serialised text.
- The `fetch`/FormData call to `/predict`, canvas frame capture, `FileReader` and `URL.createObjectURL`. These are browser I/O. Their results enter the methods as inputs.
- Asynchrony. Each handler is one atomic step, although the source awaits the camera request and the `/predict` response. Effects that depend on something happening while a request is pending are therefore not captured:
  - A second start click before the first camera request resolves: the page keeps only the second stream, and the first is never stopped.
  - A second start-live click before the first request resolves runs `startLiveDetection` twice. The first timer id is overwritten, so that timer is never cleared and keeps firing.
  - A tab switch or page unload while a camera request is pending finds no stream to stop. The stream granted afterwards is then held on a hidden tab, so the exclusivity and release guarantees of `SwitchTab` do not hold in that case.
  - A `/predict` response that arrives after Reset or a tab switch is still added to the history.
  - A live-tick response that arrives after `stopLiveDetection` still sets the live label.
  - Timer cadence and out-of-order completion of overlapping ticks.
- Client.ClientState.StartWebcam / StartLive: each requires a granted stream to be fresh. The browser's media API guarantees this; the page does not check it.
- The initial enabled/disabled state of the buttons, the initially shown tab and the tab names. They come from index.html, which is not part of this model. The constructor uses the idle state that the stop handlers also establish, with the upload tab shown.
- UploadValidation.Lower: Python's `str.lower` is modelled for ASCII letters only. No other character lower-cases to a letter of png, jpg or jpeg. So the whitelist verdict is the same, but the model does not prove that for non-ASCII names.
- backend/model_utils.py: the TensorFlow model, floating-point scores, the confidence threshold and the random fact choice are foreign numerics. The disposal table is static data.
- Flask routing, static serving, the 20 MiB `MAX_CONTENT_LENGTH` rejection (done by Flask), `secure_filename`, saving and removing the upload, and the generic 500 path. These are library calls and I/O outside the check chain. A `file` part whose filename is absent altogether is not modelled.
