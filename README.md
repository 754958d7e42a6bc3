# 48tools core, modelled in Dafny

This project models the logic inside the 48tools Electron app: a desktop tool for downloading, cutting and re-streaming videos of the 48 idol groups. The UI around that logic is not modelled. Five parts are covered:

- **The HLS playlist rewriter** (`formatTsUrl`, module `ManifestRewriter`). A downloaded playlist (RFC 8216, section 4) is split into lines. Tag lines (`#…`) and blank lines stay as they are. A root-relative segment line (`/…`) gets the fixed origin `https://ts.48.cn/` put in front, so the result holds a double slash. Any other line gets the playlist's own directory put in front. That directory is the playlist URL cut at its first `?`, with a final `/segment` removed. The rewriter is a `method` with the source's loop. It is proved against the function `Formatted`. Lemmas about `Formatted` and `RewriteLine` cover line structure, absoluteness and examples.
- **The per-job worker lifecycle** of two pages. The recorded-video download page (`InVideo.DownloadPage`) keys its jobs by the recording's id and live type. The video-cut page (`VideoCut.CutPage`) keys its jobs by the item's id. Each page is a class that holds its running jobs as a `seq<Job<K>>`, a list of key and worker-handle pairs. Each handler is a method on that class:
  - "stop" posts a stop message to the listed worker;
  - "start" runs the guards, starts a fresh worker and then adds the job;
  - the worker's message listener terminates the worker and deletes the job on `close` and `error`.

  A worker (`Jobs.Worker`) is a handle with a log of posted messages and a terminated flag. The invariant `Jobs.Consistent` states that keys are unique, workers are distinct and every listed worker is still running. The invariant is kept by starting a job for a key that has none, and by ending the listed job. A ghost event log on each page records the order of the steps: a start is posted before its job is added, and a worker is terminated before its job is deleted.
- **The node-media-server slot** of the main process (`NodeMediaServer.ServerSlot`). The slot holds at most one server worker. `nodeMediaServerClose` terminates the worker in the slot and empties the slot. The re-init handler closes the old server first, then fills the slot with a new worker. The new worker's data is the message plus the development flag. The invariant `Valid` says a created worker runs exactly while it is in the slot.
- **The build configuration** (`SweetConfig`):
  - the development and analyzer flags;
  - the HTML minification choice;
  - the `nodeExternals` table, built by the source's loop;
  - the Babel plugin list, where `unshift` puts the prop-types stripper first outside development;
  - the configuration object built from the pieces above.
- **The AcFun "add to queue" form** (`AddForm`):
  - the `reduce` that builds the video-kind table, as a loop;
  - the projection of the parsed representations to three fields;
  - the handler's branches: validation failed; representations found; none found; parse threw.

The collaborators of the handlers become inputs to the methods: the playlist address, the save dialog's answer, the playlist text, whether the write worked, the validated form, the parse outcome and the queue id. `process.env` is a map `ProcessEnv.Env`.

The handlers add a job without looking for an existing job under the same key, and the add reducers are not part of this model, so adding always appends. `Jobs.UniqueAfterAppend` and `Jobs.DuplicateDeleteHitsOlder` state what that means.

## Model

| member | source | states |
|---|---|---|
| ManifestRewriter.Split | packages/48tools/src/pages/48/Live48/InVideo/InVideo.tsx:32 | `split('\n')` gives at least one piece, and no piece holds a newline |
| ManifestRewriter.JoinSplit | packages/48tools/src/pages/48/Live48/InVideo/InVideo.tsx:32-48 | joining the pieces of a split with newlines gives the text back |
| ManifestRewriter.SplitJoin | packages/48tools/src/pages/48/Live48/InVideo/InVideo.tsx:32-48 | splitting a join of newline-free pieces gives the same pieces back |
| ManifestRewriter.StripQuery | packages/48tools/src/pages/48/Live48/InVideo/InVideo.tsx:36 | the part before the first `?`: a prefix of the URL with no `?`, all of the URL when it has no `?`, and otherwise followed by `?` |
| ManifestRewriter.Directory | packages/48tools/src/pages/48/Live48/InVideo/InVideo.tsx:36 | the directory is a `?`-free prefix of the URL. Either it is the query-stripped URL, or that URL continues after it with `/` and a non-empty, slash-free tail. Nothing is removed when the stripped URL has no `/` or ends in `/`, and something is removed otherwise |
| ManifestRewriter.RewriteAll | packages/48tools/src/pages/48/Live48/InVideo/InVideo.tsx:38-46 | one output line per input line, in order, and line i is line i of the input rewritten |
| ManifestRewriter.FormattedLines | packages/48tools/src/pages/48/Live48/InVideo/InVideo.tsx:32-48 | when the URL holds no newline, the output has exactly as many lines as the input, and each output line depends only on its input line and the URL |
| ManifestRewriter.FormatTsUrl | packages/48tools/src/pages/48/Live48/InVideo/InVideo.tsx:31-49 | the loop that pushes each rewritten line computes `Formatted(data, m3u8Url)`, and it keeps the line count and the line-by-line correspondence |
| ManifestRewriter.RewrittenLineIsAbsolute | packages/48tools/src/pages/48/Live48/InVideo/InVideo.tsx:39-44 | for a playlist URL `scheme://…`, every segment line that is not a tag comes out starting with the fixed origin or with `scheme://` |
| ManifestRewriter.DirectoryKeepsScheme | packages/48tools/src/pages/48/Live48/InVideo/InVideo.tsx:36 | the directory of `scheme://…` keeps `scheme://`, except that `scheme://host` (no path) loses its host and leaves `scheme:/` |
| ManifestRewriter.RewriteLineKeepsLine | packages/48tools/src/pages/48/Live48/InVideo/InVideo.tsx:39-44 | every rewritten line ends with the original line: rewriting only adds a prefix |
| ManifestRewriter.RewriteNotIdempotent | packages/48tools/src/pages/48/Live48/InVideo/InVideo.tsx:41-44 | rewriting a rewritten root-relative line changes it again, so the rewrite must run once only |
| ManifestRewriter.DirectoryOfFile | packages/48tools/src/pages/48/Live48/InVideo/InVideo.tsx:36 | the directory of `dir/file?query` or `dir/file` is `dir` |
| ManifestRewriter.Examples | packages/48tools/src/pages/48/Live48/InVideo/InVideo.tsx:36-44 | for a playlist `dir/a.m3u8?x=1`: `seg0.ts` becomes `dir/seg0.ts`, `/abs/seg1.ts` becomes `https://ts.48.cn//abs/seg1.ts`, and a tag line stays unchanged |
| ManifestRewriter.LineExamples | packages/48tools/src/pages/48/Live48/InVideo/InVideo.tsx:39-44 | the three kinds of line under one directory: relative, root-relative (double slash) and tag |
| Jobs.Worker.constructor | packages/48tools/src/pages/48/Live48/InVideo/InVideo.tsx:107 | a new worker has been sent nothing and is running |
| Jobs.Worker.PostMessage | packages/48tools/src/pages/48/Live48/InVideo/InVideo.tsx:122-128 | `postMessage` appends the message to the worker's log and does not terminate it |
| Jobs.Worker.Terminate | packages/48tools/src/pages/48/Live48/InVideo/InVideo.tsx:117 | `terminate` marks the worker terminated and leaves its log alone |
| Jobs.FindIndex | packages/48tools/src/pages/48/Live48/InVideo/InVideo.tsx:80 | `findIndex` gives the first index whose key matches (both id and live type, as one key), or -1 exactly when no job has the key |
| Jobs.DeleteByKey | packages/48tools/src/pages/48/Live48/InVideo/InVideo.tsx:118 | deleting by key removes one job when some job has the key, and otherwise leaves the list as it is; which jobs remain is stated by `Jobs.DeleteIndices` |
| Jobs.DeleteIndices | packages/48tools/src/pages/48/Live48/InVideo/InVideo.tsx:118 | when a job has the key, the remaining jobs are the ones before the first such job followed by the ones after it, in order |
| Jobs.UniqueAfterAppend | packages/48tools/src/pages/48/Live48/InVideo/InVideo.tsx:130-134 | adding does not reject duplicates: keys stay unique exactly when the list had unique keys and did not hold the added key |
| Jobs.FindAfterAppend | packages/48tools/src/pages/48/Live48/InVideo/InVideo.tsx:130-134 | after an append, a lookup finds the older job if there was one, and otherwise the appended one exactly when its key matches |
| Jobs.DeleteUnique | packages/48tools/src/pages/48/Live48/InVideo/InVideo.tsx:118 | in a list with unique keys, deleting leaves no job with the key and keeps exactly the other jobs |
| Jobs.DeleteKeepsWorkers | packages/48tools/src/pages/48/Live48/InVideo/InVideo.tsx:118 | deleting keeps workers distinct and adds no worker |
| Jobs.DeleteDropsWorker | packages/48tools/src/pages/48/Live48/InVideo/InVideo.tsx:117-118 | with distinct workers, the deleted job's worker is no longer listed |
| Jobs.AppendConsistent | packages/48tools/src/pages/48/Live48/InVideo/InVideo.tsx:130-134 | adding a running, unlisted worker under an unlisted key keeps the list consistent |
| Jobs.DeleteKeepsConsistent | packages/48tools/src/pages/48/Live48/InVideo/InVideo.tsx:118 | deleting by key keeps a consistent list consistent |
| Jobs.EndJobLeaves | packages/48tools/src/pages/48/Live48/InVideo/InVideo.tsx:112-119 | ending the listed job of a worker leaves unique keys and workers, and every remaining worker is a different one and still running, so terminating it keeps the list consistent |
| Jobs.DuplicateDeleteHitsOlder | packages/48tools/src/pages/48/Live48/InVideo/InVideo.tsx:109-134 | with two jobs for one key, the delete of the newer worker's listener removes the older job, so the newer, terminated worker would stay listed |
| InVideo.Actions | packages/48tools/src/pages/48/Live48/InVideo/InVideo.tsx:200-231 | a row offers "stop" exactly when a download for its id and live type runs, and otherwise the three qualities `chao`, `gao`, `liuchang` |
| InVideo.ActionsAfterAdd | packages/48tools/src/pages/48/Live48/InVideo/InVideo.tsx:201-206 | once a download is added, its row offers "stop" |
| InVideo.ActionsAfterDelete | packages/48tools/src/pages/48/Live48/InVideo/InVideo.tsx:201-206 | once its download is deleted from a list with unique keys, the row offers the qualities again |
| InVideo.DownloadPage.HandleStopClick | packages/48tools/src/pages/48/Live48/InVideo/InVideo.tsx:79-85 | stop is posted to the worker matching both id and live type. Nothing happens without a match. The list and every other worker stay unchanged, no worker is terminated, and consistency is kept |
| InVideo.DownloadPage.HandleDownloadClick | packages/48tools/src/pages/48/Live48/InVideo/InVideo.tsx:88-139 | no address: a warning only. Cancelled or empty dialog: nothing. A throw from the request or the write: the error message, with no file, worker or job. Otherwise: the rewritten playlist is written to `filePath.m3u8`, a fresh worker gets the start payload `{filePath.m3u8, filePath, ffmpeg, true}`, the job is appended after the start is posted, and consistency is kept when the key was not listed |
| InVideo.DownloadPage.AddJob | packages/48tools/src/pages/48/Live48/InVideo/InVideo.tsx:130-134 | the add appends the job and keeps consistency for a running, unlisted worker under an unlisted key |
| InVideo.DownloadPage.OnWorkerMessage | packages/48tools/src/pages/48/Live48/InVideo/InVideo.tsx:109-120 | on `close` or `error`, the worker is terminated and the recording's job deleted, after the termination. Only `error` adds a failure naming the title. Any other message changes nothing. The listed worker's listener keeps consistency |
| InVideo.DownloadPage.EndJob | packages/48tools/src/pages/48/Live48/InVideo/InVideo.tsx:113-118 | the failure message when failed, the termination, then the deletion, and consistency kept for the listed worker |
| VideoCut.Controls | packages/48tools/src/pages/VideoEdit/VideoCut/VideoCut.tsx:101-129 | delete is disabled exactly when a cut for the item's id runs, and "stop" is offered exactly then, "start" otherwise |
| VideoCut.ControlsAfterAdd | packages/48tools/src/pages/VideoEdit/VideoCut/VideoCut.tsx:102-123 | once a cut is added, its row offers "stop" and cannot be deleted |
| VideoCut.ControlsAfterDelete | packages/48tools/src/pages/VideoEdit/VideoCut/VideoCut.tsx:102-123 | once its cut is deleted from a list with unique ids, the row offers "start" and can be deleted again |
| VideoCut.CutPage.HandleStopCutClick | packages/48tools/src/pages/VideoEdit/VideoCut/VideoCut.tsx:47-53 | stop is posted to the worker found by id alone. Nothing happens without a match. The list and the other workers stay unchanged, and consistency is kept |
| VideoCut.CutPage.HandleStartCutClick | packages/48tools/src/pages/VideoEdit/VideoCut/VideoCut.tsx:56-91 | cancelled or empty dialog: nothing. Otherwise a fresh worker gets the start payload with the item's file, the chosen path and the item's start and end times, and the job is appended after the start is posted. Consistency is kept when the id was not listed |
| VideoCut.CutPage.AddJob | packages/48tools/src/pages/VideoEdit/VideoCut/VideoCut.tsx:87-90 | the add appends the cut and keeps consistency for a running, unlisted worker under an unlisted id |
| VideoCut.CutPage.OnWorkerMessage | packages/48tools/src/pages/VideoEdit/VideoCut/VideoCut.tsx:65-76 | on `close` or `error`, the worker is terminated and the item's cut deleted. Only `error` adds a failure naming the item. Any other message changes nothing. The listed worker's listener keeps consistency |
| VideoCut.CutPage.EndJob | packages/48tools/src/pages/VideoEdit/VideoCut/VideoCut.tsx:68-75 | the failure message when failed, the termination, then the deletion, and consistency kept for the listed worker |
| NodeMediaServer.WorkerDataRoundTrip | packages/main/src/nodeMediaServer/nodeMediaServer.ts:29-32 | the worker data is exactly the message's three fields plus the development flag: it gives the message back, and is rebuilt from its parts |
| NodeMediaServer.ServerWorker.constructor | packages/main/src/nodeMediaServer/nodeMediaServer.ts:28-33 | a new server worker carries the given data and runs |
| NodeMediaServer.ServerWorker.Terminate | packages/main/src/nodeMediaServer/nodeMediaServer.ts:18 | `terminate` marks the worker terminated |
| NodeMediaServer.ServerSlot.constructor | packages/main/src/nodeMediaServer/nodeMediaServer.ts:6-7 | `isDevelopment` holds exactly when `NODE_ENV` is `development`, and the slot starts empty |
| NodeMediaServer.ServerSlot.Close | packages/main/src/nodeMediaServer/nodeMediaServer.ts:16-21 | a filled slot's worker is terminated and the slot emptied. An empty slot is left unchanged, so closing twice is closing once. In a valid slot, afterwards no created worker runs |
| NodeMediaServer.ServerSlot.Reinit | packages/main/src/nodeMediaServer/nodeMediaServer.ts:25-34 | the old worker is terminated before the new one is created (event order). The slot then holds exactly the fresh, running worker with data `{...arg, isDevelopment}`, and the slot invariant is kept |
| NodeMediaServer.AtMostOneLive | packages/main/src/nodeMediaServer/nodeMediaServer.ts:7-33 | in a valid slot any two running created workers are the same one, the one in the slot |
| NodeMediaServer.ReinitTwice | packages/main/src/nodeMediaServer/nodeMediaServer.ts:25-34 | after two messages the first server is stopped, and only the second one runs, in the slot |
| SweetConfig.RequireExprInjective | packages/48tools/sweet.config.ts:33 | different module names get different `globalThis.require('<name>')` expressions, so no two externals share a loader |
| SweetConfig.NodeExternals | packages/48tools/sweet.config.ts:29-37 | the loop's table has exactly the input names as keys, with an empty input giving an empty table and a repeated name keeping one key. Each value is `globalThis.require('<name>')` |
| SweetConfig.Plugins | packages/48tools/sweet.config.ts:40-46 | the antd import plugin is always last. In development it is alone. Otherwise `unshift` puts the prop-types stripper first, and the list has length 2 |
| SweetConfig.BuildConfig | packages/48tools/sweet.config.ts:6-117 | the configuration for a given `process.env`: both HTML pages get no minification exactly when `NODE_ENV` is `development`, and the options object (every switch on, ES2020, Safari 10) otherwise; the externals are the fifteen listed modules; the JS and TS loaders share one plugin list; `configFile` is `tsconfig.json` when `NODE_ENV` is `development` and `tsconfig.prod.json` otherwise, with the prop-types stripper in the plugin list exactly in the latter case; the bundle analyzer follows the dayjs plugin only when `ANALYZER` is `true` |
| AddForm.TypesMap | packages/48tools/src/pages/AcFun/Download/AddForm.tsx:22-26 | the reduce's table has exactly the items' values as keys, and each value maps to the label of its last item, so a later duplicate overwrites an earlier one |
| AddForm.AcfunVideoTypesMap | packages/48tools/src/pages/AcFun/Download/AddForm.tsx:15-26 | the table is exactly `ac` → `视频（ac）` and `aa` → `番剧（aa）` |
| AddForm.ProjectAll | packages/48tools/src/pages/AcFun/Download/AddForm.tsx:62-66 | the projection keeps length and order and copies `m3u8Slice`, `url` and `qualityLabel` and nothing else |
| AddForm.ProjectAllIdempotent | packages/48tools/src/pages/AcFun/Download/AddForm.tsx:62-66 | projecting twice is projecting once |
| AddForm.ProjectAllFixed | packages/48tools/src/pages/AcFun/Download/AddForm.tsx:62-66 | representations that carry only the three fields pass through unchanged |
| AddForm.AddFormState.constructor | packages/48tools/src/pages/AcFun/Download/AddForm.tsx:38-39 | the form starts hidden and not loading |
| AddForm.AddFormState.HandleAddDownloadQueueClick | packages/48tools/src/pages/AcFun/Download/AddForm.tsx:43-78 | failed validation: nothing, with no parse and no loading flag. Otherwise the steps are, in order: loading set, one parse for the form's kind and id, loading cleared. Representations found: one queue entry with the projected representations, and the modal closes. None found: a warning, no entry, and the modal stays. A throw: the error message and no entry |

## Left out

- Rendering, antd widgets, selectors, the other handlers of the pages, and the Redux store itself. Each page's class holds only the slice its handlers read and write.
- `handleDeleteClick` (VideoCut.tsx:42-44) only dispatches the queue reducer, which is not part of this model. The model covers the condition under which its button is enabled (`VideoCut.Controls`).
- The reducers `setVideoListChildAdd`/`Delete` and `setCutChildListAdd`/`Delete` are not part of this model. Add is modelled as an append. Delete is modelled as removing the first job with the record's key, the lodash `findIndex` plus `splice` shape. No duplicate rejection is assumed.
- Asynchrony. Each handler runs as one atomic step, and each worker's message listener is a separate method taking the message type. Interleavings, such as a stop racing a close or a second start before the list re-renders, are not modelled.
- I/O becomes inputs:
  - `parseVideoItem` becomes the optional playlist address;
  - `requestDownloadFile` becomes the optional playlist text, None when it threw;
  - `fs.promises.writeFile` becomes a success flag, with the written file recorded in a log;
  - `showSaveDialog` becomes its answer;
  - `getFFmpeg` becomes the `ffmpeg` string;
  - `parseAcFunUrl` becomes the parse outcome;
  - `randomUUID` becomes the `qid` parameter;
  - `form.validateFields` becomes an optional form value.
- The save dialog's `defaultPath` is built only for the dialog, whose answer is an input, so it is not modelled. For the same reason, the chosen quality reaches only collaborators (the address lookup and that default path).
- InVideo.DownloadPage.HandleDownloadClick: a throw from `parseVideoItem` or from the dialog lands in the same catch and shows the same error. Only throws of the playlist request and of the write are modelled.
- `console.error` logging is not modelled. The text of the toasts is replaced by `Notice` values, and each value carries the title or name the toast shows.
- The worker scripts, ffmpeg and `worker_threads` are not modelled. A worker is a handle with a message log and a terminated flag. `await` on `terminate()` is one step. `path.join(__dirname, 'server.worker.js')` is not modelled.
- sweet.config.ts: the constant `sass`, `css` and `rules` sections, and the `exclude` regular expressions. Entry and template paths are kept relative to the package, without `path.join(__dirname, …)`. The `info` argument is unused by the source.
- NodeMediaServer.ServerSlot.Reinit: each handler is one atomic step, so `AtMostOneLive` and `ReinitTwice` hold only for messages handled one after another. The source awaits `terminate()` (nodeMediaServer.ts:18 and 26). A second message arriving during that wait finds the old worker still in the slot and terminates it again. The first handler then creates its worker W1, and the second handler's close empties the slot without terminating W1 before creating W2, leaving two servers running. That interleaving is not modelled.
- SweetConfig.NodeExternals: a JavaScript object is modelled as a map. For the key `__proto__` the source's assignment goes to the inherited setter, which ignores a string, so that name gets no key. The model gives it one. No module name in use starts with `_`.
- AddForm.TypesMap: the same `__proto__` difference as for `NodeExternals`, for a video kind of that value. The kinds in use are `ac` and `aa`.
- InVideo.DownloadPage.OnWorkerMessage: consistency is promised only for the listener of the worker listed under the record's key. With duplicate keys (`Jobs.DuplicateDeleteHitsOlder`) the listener deletes another worker's job.
- VideoCut.CutPage.OnWorkerMessage: consistency is promised only for the listener of the worker listed under the item's id, for the same reason.
