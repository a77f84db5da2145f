# cad2ml: verified model

A Dafny model of the parts of cad2ml whose correctness rests on state, order or arithmetic:

1. **Durable jobs.** Many workers, a lossy and duplicating queue, leases, a reaper and a reconciler act
   on one table of jobs with an event log. `JobProtocol` is the transition system (`Next`, `Exec`);
   `JobInvariant`, `JobSafety`, `JobRuns` and `JobRecovery` hold what every run keeps, `JobStranding` which
   jobs a process stopped halfway leaves behind, `JobScripts` the run one handled delivery takes and the
   state it ends in; `JobService` holds the classes `Database`, `JobQueue` and `Worker`, whose methods are
   proved to take exactly those steps.
2. **Rendering.** `ZBuffer` proves the bounding-box-tiled, in-place loop equal to a per-pixel
   definition; `Render` holds cameras, projection, boxes, perspective depth and unprojection in exact
   reals; `Visibility` says in space, without projection, which triangles a pixel sees; `RenderViews` joins
   them.
3. **Union-finds, graph searches and claims.** `Partition` holds equivalence closures. `UnionFind`,
   `NearDuplicates`, `NearClusters`, `DatasetUnits` and `DatasetSplit` follow the dataset builder.
   `HoleStacks`, `RecognizerSearch`, `RecognizerComponents` and `RecognizerFeatures` follow the feature
   recognizer, with its geometric tests as arbitrary predicates and its rules as arbitrary functions of
   what is claimed.
4. **Entity alignment.** `Entities` (incidence, fingerprints, canonical order, records), `EntityRecords`
   (what the records say, from the kernel's incidence lists alone),
   `CanonicalIds` (independence of the kernel's traversal order), `FaceGraphs`, `FaceRanges`,
   `Allocation`, `EntityMatching`, `Lineage` (the stored representations and the tracer), `Extraction`
   (how they are built, the index, and why the tracer accepts it) and `IndexEntries` (what the index says
   of a face).
5. **Sample store.** `SampleStore` (directories and files), `SampleProcess` (one call of
   `process_source`, for every way its steps can fail), `SampleRuns` (any sequence of calls) and
   `SampleVersions` (what a call leaves where: the version it replaces, the one it publishes, its failure).

`Ordering`, `Sorting`, `Relabelling`, `Identifiers` and `Wrappers` are shared. `dafny verify
dfyconfig.toml` checks everything.

Identifiers of which the code uses only equality and order are naturals. Floats are reals. Clocks, kernel
measurements, hashes, random draws, child processes, callbacks and I/O outcomes are parameters.

## What turned out not to hold

- Retry, reap and submission are several transactions. Maintenance secures exactly the jobs none of whose
  submissions, retries and reaps a process left between the transitions
  (`JobStranding.JobIsSafeIff`, `JobStranding.UnsettledIff`). The other jobs never move again
  (`JobStranding.StrandedForEver`). All three cuts occur: `JobStranding.SubmissionCuts`,
  `JobStranding.WorkerCutStrands` and `JobStranding.ReaperCutStrands` are runs. A stop between the last
  transition and the enqueue is repaired (`JobStranding.MissingEnqueueIsRepaired`).
- A reaper that acts on a row it read earlier is harmless exactly when no live worker holds the job and
  the attempts it read do not promise a retry the job no longer has (`JobRecovery.StaleReapSafeIff`).
  `JobRecovery.StaleReaperTwoExecutors` is a run in which two live workers end up with one job.
- `max_attempts` bounds the attempts of a submitted job exactly when it is at least one
  (`JobRuns.AttemptLimitIff`); a job with a smaller limit is still claimed once (`JobRuns.TakeBreaksLimit`).
- The docstring of `process_source` says a sample directory holds a complete manifest or does not exist. A
  call breaks this exactly when recording a failure that is stored, raised at intake or by a child, breaks
  off after the directory is made (`SampleRuns.BlocksIff`; `SampleRuns.BlockedDirectoryArises` is an
  instance). A later call that works then returns a completed manifest that is not stored
  (`SampleRuns.CompletedIsStoredIff`, `SampleRuns.FinishedSampleIsLost`).
- A completed manifest survives a call with reuse on exactly when the call is not an intake rejection
  that is recorded: rejections depend on the file name, are recorded before the reuse lookup, and can
  hit the same sample id (`SampleRuns.CompletedSurvivesIff`).
- An explicit rerun keeps the version it replaces exactly when no version was set aside under the stamp of
  the call, or the same one was; otherwise the earlier one stays and the replaced one is lost
  (`SampleVersions.VersionKeptIff`).
- Face-id masks are 16 bits wide. A mask pixel names the face that won it exactly when the face's rank is
  below 65535 (`RenderViews.PixelLands`); from there on the index counts no pixel of a face, seen or not
  (`Extraction.UnmaskedFace`).

## Model

| member | source | states |
|---|---|---|
| JobStates.FailureTargets | cad2ml/jobs/service.py:209-217 | every error code has a legal target state from every in-flight state, and the job is retried exactly when the catalogue marks the code retryable |
| JobStates.FailureMeans | cad2ml/errors.py:24-56 | inputs outside the contract lead to rejected, unsafe geometry and crashes to quarantined, hard timeouts to timed_out, transient faults to failed_retryable, and the program's own faults to failed_terminal, code by code |
| JobStates.TerminalIsFinal | cad2ml/jobs/states.py:39-57 | the terminal states are exactly those without an outgoing transition |
| JobInvariant.MoveKeeps | cad2ml/jobs/db.py:148-180 | a transition the code issues keeps table and log consistent, appends exactly one state change, and strictly lowers the job's potential |
| JobInvariant.ClaimKeeps | cad2ml/jobs/service.py:95-123 | a claim keeps the table and log consistent, counts the attempt, and lowers the potential |
| JobInvariant.AfterRetryableKeeps | cad2ml/jobs/service.py:166-187 | after a retryable failure the job is queued again exactly when attempts remain, otherwise it fails for good, and table and log stay consistent |
| JobSafety.Exclusive | cad2ml/jobs/service.py:95-123 | under the invariant no two live workers hold one job |
| JobSafety.NextKeeps | apps/worker/main.py:99-251 | every step of the system, of whatever kind and in whatever order, also one that stops halfway, keeps the invariant |
| JobRuns.LeaseExclusion | apps/worker/main.py:99-251 | in every reachable state the holder is unique, the row is in flight under its name and an unexpired lease, and its local state is the row's |
| JobRuns.HolderCasHits | apps/worker/main.py:139-231 | no compare-and-set of a live holder misses or is illegal: the row is in the state it asks for and the table allows the move |
| JobRuns.CasTakesEffect | apps/worker/main.py:139-231 | in every reachable state, each compare-and-set of a live holder leaves the job in the state it asks for, with exactly that change appended to its history; a returned completed result ends in completed, an exception in failed_terminal |
| JobRuns.ReapTakesEffect | cad2ml/jobs/service.py:142-188 | a reap changes exactly a job in flight whose lease has passed: it ends queued if attempts remain and failed_terminal if not, with those changes in its history |
| JobRuns.HeartbeatsLetTimePass | cad2ml/jobs/service.py:126-139 | one heartbeat of each live worker lets the clock advance by a whole lease |
| JobRuns.LawfulCounts | cad2ml/jobs/db.py:166-179 | along a lawful history the attempt number counts the claims, and entries to queued exceed claims by one exactly when the job is queued |
| JobRuns.LogReplay | cad2ml/jobs/db.py:148-180 | in every reachable state the log alone determines state and attempts of each job; its changes form a path of the transition table from received; attempt numbers never fall |
| JobRuns.NextAdvances | cad2ml/jobs/states.py:42-57 | every step pays for each new state change of a job with its potential, which never rises |
| JobRuns.JobsTerminate | cad2ml/jobs/service.py:154-187 | attempts never exceed the limit (or one), and a job has at most six state changes an attempt plus three |
| JobRuns.AttemptLimitIff | cad2ml/jobs/service.py:154-187 | in every continuation a submitted job stays within its limit of attempts, exactly when the limit is at least one |
| JobRuns.TakeBreaksLimit | cad2ml/jobs/service.py:95-123 | taking a queued job counts the attempt without looking at the limit, so a limit below one is exceeded |
| JobRuns.TerminalForEver | cad2ml/jobs/states.py:39-57 | a terminal job keeps its state, attempts and history through every further run |
| JobRuns.KeysStayUnique | cad2ml/jobs/service.py:43-92 | no run creates two jobs of one kind and idempotency key |
| JobRuns.SubmissionIsIdempotent | cad2ml/jobs/service.py:43-92 | from any reachable state, submitting leaves exactly one job for the key, and submitting again changes nothing |
| JobRuns.RacesActAtomically | cad2ml/jobs/service.py:55-87 | however much happens between a submission's lookup and its insert, other submissions of the key included, both act like one step at the insert |
| JobRecovery.MaintenanceSecures | apps/worker/main.py:65-68 | one maintenance pass leaves a job terminal, in the queue, queued too recently to judge, or in flight under an unexpired lease, exactly if the job was not between the transitions of a submission or retry; reconciling again at once finds nothing |
| JobRecovery.QueuedJobReachesWorker | cad2ml/jobs/queue.py:39-46 | from any state an idle worker has a run that ends with it holding a given queued job |
| JobRecovery.NoOvertaking | cad2ml/jobs/queue.py:39-43 | deliveries are reserved in the order in which they were pushed |
| JobRecovery.StaleReapSafeIff | cad2ml/jobs/service.py:142-188 | a reap from an old reading keeps the invariant exactly when nobody holds the job and the reading promises no extra attempt |
| JobRecovery.StaleReaperTwoExecutors | cad2ml/jobs/service.py:142-188 | a concrete run from an initial state in which a stale reap gives one job to two live workers |
| JobStranding.NextUnsettles | cad2ml/jobs/service.py:43-92 | one step leaves a job between transitions exactly if it was there or the step stops inside its submission, retry or reap before the last transition |
| JobStranding.UnsettledIff | cad2ml/jobs/service.py:154-187 | after any run a job lies between transitions exactly if some step of the run stopped there |
| JobStranding.JobIsSafeIff | cad2ml/jobs/service.py:142-206 | after any run, one maintenance pass secures a job exactly if no step of the run cut it short |
| JobStranding.NoJobIsLost | cad2ml/jobs/service.py:142-206 | when no process stops inside a submission, retry or reap, one pass secures every job, through flushes, duplicates and worker deaths |
| JobStranding.StrandedForEver | cad2ml/jobs/service.py:154-187 | a job left between transitions never moves again, whatever is done |
| JobStranding.SubmissionCuts | cad2ml/jobs/service.py:43-92 | a submission stopped after its first, second or third write leaves the job received, validated, or queued but not enqueued |
| JobStranding.MissingEnqueueIsRepaired | cad2ml/jobs/service.py:191-206 | reconciling enqueues a job whose submission stopped before the enqueue |
| JobStranding.WorkerCutStrands | cad2ml/jobs/service.py:154-187 | a run from an empty system in which a worker stopped inside a retry leaves its job in failed_retryable |
| JobStranding.ReaperCutStrands | cad2ml/jobs/service.py:142-188 | a run in which a reaper does |
| JobService.Database.Transition | cad2ml/jobs/db.py:148-180 | the method's effect on rows and log, and its result, are the model's compare-and-set, which looks at the state only |
| JobService.JobQueue.ReleaseWorker | cad2ml/jobs/queue.py:54-59 | the draining loop puts a worker's list before the queue in its order and returns how many it moved |
| JobService.SubmitJob | cad2ml/jobs/service.py:43-92 | the method takes exactly the submission step and reports whether it created the job |
| JobService.InsertJob | cad2ml/jobs/service.py:72-87 | the insert creates the job exactly if no job has its kind and key; otherwise it returns such a job and changes nothing |
| JobService.Claim | cad2ml/jobs/service.py:95-123 | a claim hits exactly the queued rows; the row is then in the first state of its kind under the worker's name and lease with one attempt more; otherwise nothing changes |
| JobService.ReapExpiredLeases | cad2ml/jobs/service.py:142-188 | the loop reaps exactly the rows in flight whose lease had passed, each by one reap step |
| JobService.ReconcileQueue | cad2ml/jobs/service.py:191-206 | the loop enqueues exactly the queued jobs that are missing from every list and old enough |
| JobService.Maintenance | apps/worker/main.py:65-68 | the two passes together secure exactly the jobs not left between transitions, and keep the invariant |
| JobService.Worker.Progress | apps/worker/main.py:147-163 | a progress report moves the row and the worker's local state together, or ends in the exception handler |
| JobService.Worker.Handle | apps/worker/main.py:99-137 | handling a delivery, whatever stages, notes and heartbeats happen meanwhile and however it ends, is exactly that run of the protocol and ends idle; a queued job ends in the state of that ending, a job that is not queued is left alone |
| JobScripts.HandleConcludes | apps/worker/main.py:99-231 | a queued job whose delivery is handled ends completed if the pipeline returns a completed manifest, failed_terminal if it raises, and where its error code leads if it fails, queued again if that is a retry with attempts left |
| JobScripts.HandledJob | apps/worker/main.py:99-231 | the history of that job gains exactly the claim, the reported stages in order, and the changes of its ending |
| JobService.Worker.Serve | apps/worker/main.py:70-97 | one turn of the worker's loop reserves a delivery, if there is one, and handles it |
| ZBuffer.DrawnIsUnique | cad2ml/representations/render.py:118-132 | the per-pixel definition leaves no choice of depth and face id |
| ZBuffer.DrawAll | cad2ml/representations/render.py:86-136 | the in-place loops over triangles and boxes produce the per-pixel definition at every pixel |
| Render.LookAtCamera | cad2ml/representations/render.py:35-50 | the camera's axes are orthonormal and the target lies straight ahead at its distance |
| Render.RigNeverDegenerates | cad2ml/representations/render.py:35-50 | with the rig's up vector the right vector never vanishes, whatever the view direction |
| Render.WeightsRebuild | cad2ml/representations/render.py:111-119 | the screen weights rebuild the pixel from the projected vertices |
| Render.CoveredInBox | cad2ml/representations/render.py:98-110 | the floor, ceiling and clip of the bounding box never drop a covered pixel |
| Render.DepthPositive | cad2ml/representations/render.py:118-125 | a covered pixel's depth is positive and the guarded division is a true inverse |
| Render.UnprojectLands | cad2ml/representations/render.py:163-172 | back-projecting a fragment's depth gives a convex combination of its triangle's vertices |
| Visibility.KeptIsShown | cad2ml/representations/render.py:101-104 | a triangle is kept exactly when its three vertices lie before the camera and its world normal points to the eye, up to the two tolerances |
| Visibility.FragmentIff | cad2ml/representations/render.py:98-125 | a triangle covers a pixel at a depth exactly when its outer side is shown and the ray through the pixel's centre meets it at that depth, by convex weights of its vertices in space |
| Visibility.LookAtFrames | cad2ml/representations/render.py:35-50 | look_at builds a right-handed orthonormal frame around the eye, with up pointing up in the image |
| RenderViews.BoxesFitImage | cad2ml/representations/render.py:98-110 | every box lies in the image and holds all fragments of its triangle |
| RenderViews.Rasterize | cad2ml/representations/render.py:86-136 | each pixel is zero exactly when nothing covers it; otherwise least depth, and the 16-bit mask of the face of the first triangle attaining it; for a camera of look_at, in terms of the ray through the pixel and the outer sides it meets |
| RenderViews.StoredSees | cad2ml/representations/render.py:86-136 | a stored pixel is background exactly when its ray meets no outer side; otherwise it holds the least depth at which it meets one, and the face of the first triangle met there |
| RenderViews.PixelsBackProject | cad2ml/extraction.py:166-183 | with at most 65535 faces, every foreground pixel back-projects onto the triangle that won it, one of the face its mask names, hence into that face's vertex bounding box |
| RenderViews.PixelLands | cad2ml/representations/render.py:160-172 | every pixel with depth back-projects onto the triangle that won it, and the mask names its face exactly when the face's number leaves room in 16 bits |
| Partition.MergeLabels | cad2ml/datasets/builder.py:114-117 | giving two classes one name tracks one more link of the equivalence closure |
| UnionFind.RootIsLeast | cad2ml/datasets/builder.py:103-117 | a root is the least identifier of its class |
| UnionFind.HalvingKeepsRoots | cad2ml/datasets/builder.py:107-112 | path halving keeps the order of parents and every root |
| UnionFind.LinkMerges | cad2ml/datasets/builder.py:114-117 | linking the larger root under the smaller merges exactly the two classes |
| UnionFind.Forest.Find | cad2ml/datasets/builder.py:107-112 | find terminates, returns the root, adds a missing key as its own class and changes no other |
| UnionFind.Forest.Union | cad2ml/datasets/builder.py:114-117 | union merges exactly the classes of its arguments |
| NearDuplicates.NearSymmetric | cad2ml/datasets/builder.py:56-68 | the near-duplicate test is symmetric |
| NearDuplicates.NearMeans | cad2ml/datasets/builder.py:56-68 | two signatures are near duplicates exactly when volumes and areas have one sign and agree to 0.2 %, and each sorted dimension to half a millimetre and a thousandth |
| NearDuplicates.NearIsNotTransitive | cad2ml/datasets/builder.py:56-68 | the test is not transitive, by concrete signatures |
| NearDuplicates.LinkedIsNearLinked | cad2ml/datasets/builder.py:71-84 | the closure of the collected pairs is the closure of the test |
| NearClusters.JoinAll | cad2ml/datasets/builder.py:71-84 | after the double loop the forest's classes are the closure of all near pairs |
| NearClusters.NearDuplicateClusters | cad2ml/datasets/builder.py:71-84 | the result is exactly the classes of size at least two, each sorted, in sorted order |
| NearClusters.ClustersAreUnique | cad2ml/datasets/builder.py:71-84 | that description fixes the result, so it does not depend on dictionary order |
| DatasetUnits.GroupsMergeIffAkin | cad2ml/datasets/builder.py:210-217 | two groups are joined exactly when a chain of shared groups and near duplicates joins samples of theirs |
| DatasetUnits.MergeGroups | cad2ml/datasets/builder.py:210-217 | the builder's loops leave the groups of two samples under one root exactly when such a chain joins them |
| DatasetSplit.AssignFamilies | cad2ml/datasets/builder.py:120-138 | families go by the first draw: as many as a sixth, rounded to nearest but at least one, to test, as many after them to val, the rest to train; every unit follows its family |
| DatasetSplit.AssignGroups | cad2ml/datasets/builder.py:139-153 | families take turns in the order of the first draw: of two or more shuffled units the first is held out, of four or more also the second, for val and test in turns, and the rest trains |
| DatasetSplit.CheckLeakage | cad2ml/datasets/builder.py:156-160 | the check reports exactly the keys seen in two splits, with all their splits |
| DatasetSplit.NoLeakIffDecided | cad2ml/datasets/builder.py:156-160 | the report is empty exactly when the key decides the split |
| DatasetSplit.SplitDataset | cad2ml/datasets/builder.py:210-235 | every sample has the split of its unit, units mean families or chains of groups and near duplicates and have the family of their last sample, they are assigned as the mode says, and the leakage checks stay empty |
| HoleStacks.FollowIsRoot | cad2ml/semantics/recognizer.py:298-302 | parent chains end at the named roots although linking follows no order |
| HoleStacks.Find | cad2ml/semantics/recognizer.py:298-302 | find terminates, halves paths, returns the root and changes no class |
| HoleStacks.LinkSegments | cad2ml/semantics/recognizer.py:304-308 | linking keeps the forest acyclic and merges exactly two classes |
| HoleStacks.StackSegments | cad2ml/semantics/recognizer.py:295-311 | the stacks are exactly the classes of the step links, and each segment lies in one |
| RecognizerSearch.ClosingFloor | cad2ml/semantics/recognizer.py:178-205 | the result is the least set closed behind the rim, if all of it passes and it has at most nine faces; it is empty only if there is none or the rim meets only wall |
| RecognizerSearch.StepToSegment | cad2ml/semantics/recognizer.py:219-244 | the result is the least closed transition reaching exactly one other segment; nothing is returned only if a test fails, it is empty, or it reaches another number |
| RecognizerSearch.FinishStep | cad2ml/semantics/recognizer.py:240-244 | the closing subset test never fails |
| RecognizerSearch.GrowRing | cad2ml/semantics/recognizer.py:634-647 | the ring is the least set with the walls that is closed under tangent joins off blocked faces |
| RecognizerComponents.Connected | cad2ml/semantics/recognizer.py:158-175 | the lists partition the group in any case, and are its connected components when adjacency is symmetric |
| RecognizerFeatures.ConfBounds | cad2ml/semantics/recognizer.py:42-43 | confidence lies between 0 and 0.95, is 0 without passed checks, and with fewer than 19000 checks reaches 0.95 exactly when there are checks and all pass |
| RecognizerFeatures.ConfNearest | cad2ml/semantics/recognizer.py:42-43 | the confidence is the nearest multiple of 0.0001 to 0.95 times the share of passed checks, the even one of two |
| RecognizerFeatures.NameFeatures | cad2ml/semantics/recognizer.py:833-848 | every feature is named by its prefix and its number among the features with that prefix |
| RecognizerFeatures.NamesAreDistinct | cad2ml/semantics/recognizer.py:833-848 | no two names are equal, in spite of the shared counter and of P and PL |
| RecognizerFeatures.ClaimAll | cad2ml/semantics/recognizer.py:790-796 | accepted features stay disjoint, and a proposal becomes a feature exactly when no accepted one before it holds a face of it |
| RecognizerFeatures.Recognize | cad2ml/semantics/recognizer.py:783-849 | the features are pairwise disjoint, cover every face, have distinct names numbered by prefix and capped confidence, and are sorted; before naming they are exactly the proposals that came first to their faces, each rule asked with the claims before it, and one label for each face left |
| RecognizerFeatures.KindOfFace | cad2ml/semantics/recognizer.py:790-832 | a face an accepted proposal holds is in exactly that feature, with its kind; any other face is alone, a planar face with all checks passed and 0.95 if it is a plane, unknown with its check failed and 0 if not |
| RecognizerFeatures.OrderDoesNotMatter | cad2ml/semantics/recognizer.py:843-848 | the final order, and with it the names, does not depend on the order in which rules produced the features |
| Identifiers.NamesDiffer | cad2ml/topology/canonical.py:86-91 | padded names are equal only if prefix and number are |
| Ordering.SortByForgetsOrder | cad2ml/topology/canonical.py:81-83 | sorting by an order that tells the members apart forgets the order they came in |
| Allocation.SharesTotal | cad2ml/representations/pointcloud.py:78-81 | the area-proportional shares add up to what there is to share |
| Allocation.WinnersHaveRemainder | cad2ml/representations/pointcloud.py:82-85 | leftover points go only to faces whose share is not whole |
| Allocation.Allocate | cad2ml/representations/pointcloud.py:75-86 | with positive total area counts add up to the larger of total and minimum for all; each is the minimum and the whole part of its share and at most one more, the larger fraction first and the earlier face among equals; a larger area never gets fewer |
| FaceRanges.PointRanges | cad2ml/representations/pointcloud.py:104-167 | ranges lie end to end and a position carries a face's index exactly inside its range |
| FaceRanges.Tessellate | cad2ml/representations/mesh.py:47-111 | it fails at the first face without enough triangles; otherwise each stored triangle has the corners of its face's own triangle, with the right winding, in the face's range |
| Extraction.StoredNormal | cad2ml/representations/mesh.py:73-78 | a stored triangle faces where the kernel's does, and the other way exactly when the face is reversed |
| FaceRanges.OwnedIsLength | cad2ml/lineage.py:52 | the positions carrying an index are as many as its range is long |
| Entities.Incidence | cad2ml/topology/entities.py:166-184 | the loops compute exactly the edges of each face and the distinct faces sharing an edge with it |
| Entities.OrderPermutes | cad2ml/topology/canonical.py:81-83 | the canonical order is a sorted renumbering of all indices |
| Entities.ExtractEntities | cad2ml/topology/entities.py:156-348 | the loops over dictionaries and arrays produce the records of the definition, whose meaning the members of EntityRecords state |
| EntityRecords.FaceHasRecord | cad2ml/topology/entities.py:298-321 | every face of the kernel has exactly one record, named by its position, with its measures |
| EntityRecords.EdgeHasRecord | cad2ml/topology/entities.py:322-341 | and so has every edge |
| EntityRecords.JunctionMeans | cad2ml/topology/entities.py:257-273 | an edge is a seam exactly when it is not degenerate and listed at least twice for one face, a boundary when listed once for one, non-manifold for three faces or more, unknown when degenerate or without face; the meeting of two faces is measured for these two |
| EntityRecords.FaceListsMean | cad2ml/topology/entities.py:315-335 | a face lists exactly the faces it shares an edge with, and an edge exactly the faces it bounds |
| EntityRecords.EdgeListsMean | cad2ml/topology/entities.py:316-317 | a face lists as boundary exactly the edges it bounds, and as outer loop exactly the kernel's edges that were found |
| EntityRecords.FacePrintMeans | cad2ml/topology/entities.py:231-233 | a face's fingerprint hashes its type and shape, the number of its edges and the number of its neighbours of each type |
| EntityRecords.EdgePrintMeans | cad2ml/topology/entities.py:286-289 | an edge's fingerprint hashes its type and shape, its convexity and the sorted fingerprints of its faces |
| EntityRecords.FacesSorted | cad2ml/topology/entities.py:235-240 | faces stand by place and fingerprint, equal ones in the kernel's order |
| EntityRecords.EdgesSorted | cad2ml/topology/entities.py:291-296 | and so do edges |
| CanonicalIds.AdjacentMoved | cad2ml/topology/entities.py:176-184 | renumbering the kernel's faces and edges renumbers adjacency and nothing else |
| CanonicalIds.OrdersMoved | cad2ml/topology/canonical.py:81-83 | with distinct keys the canonical order is the same up to the renumbering |
| CanonicalIds.TraversalIndependence | cad2ml/topology/entities.py:231-340 | with distinct keys and symmetric convexity, renumbering the kernel's faces and edges changes no record except the traversal index |
| EntityMatching.MatchEntities | cad2ml/topology/canonical.py:94-104 | exactly the pairs whose fingerprint occurs once on either side are matched |
| EntityMatching.MatchIsOneToOne | cad2ml/topology/canonical.py:94-104 | the match is one to one and its reverse is its inverse |
| FaceGraphs.BuildFaceGraph | cad2ml/representations/graph.py:143-151 | the edge index lists, sorted and once each, exactly the ordered pairs of distinct faces sharing an edge, with the number of edges they share |
| FaceGraphs.CheckGraph | cad2ml/representations/graph.py:181-206 | each check is true exactly when the graph has the property it is named for |
| FaceGraphs.BuildAndCheck | cad2ml/representations/graph.py:102-206 | a built graph passes every check |
| Lineage.NodesMeet | cad2ml/topology/entities.py:180-184 | two nodes share an edge record exactly when their faces share an edge in the kernel |
| Lineage.NeighboursMatch | cad2ml/lineage.py:55-56 | the names of a node's graph neighbours are the names its record lists |
| Extraction.FaceFeatures | cad2ml/extraction.py:272-275 | the dictionary gives every face the names of the features that list it, in order |
| Extraction.BuildIndex | cad2ml/extraction.py:276-291 | the loop records under each face's name its node, type, traversal index, ranges, pixel counts, features and fingerprint, and nothing under other names |
| IndexEntries.EntryMeans | cad2ml/extraction.py:276-291 | the entry of a face holds its node, the kernel's index and type, its fingerprint, the ranges of exactly the points and triangles that carry its index, and the number of pixels of each view that show it |
| IndexEntries.FeaturesListed | cad2ml/lineage.py:61 | the features of a name are those with a face of that name, each once, in their order |
| Extraction.ChecksDecide | cad2ml/extraction.py:138-188 | of the output checks on indices, counts and assignment, only missing points, missing triangles and unassigned faces can fail |
| Extraction.Extract | cad2ml/extraction.py:116-291 | from what the kernel gives in its own order, a completed extraction stores records, graph, ranges, points spread by area, mesh, views and index that agree with the kernel and each other; with areas not negative and a positive minimum it completes exactly when there are faces, all have enough triangles, and all have a feature |
| Extraction.RecognizedAssigns | cad2ml/extraction.py:185-186 | what the recognizer returns passes the check on assignment, and no feature lists a face twice |
| Extraction.OneFeatureEach | cad2ml/extraction.py:272-290 | the tracer lists exactly one recognized feature for each face |
| Extraction.TracerAccepts | cad2ml/lineage.py:29-60 | for every face of a completed extraction all six checks of the tracer hold and the features listed are the index's; other names are unknown |
| Extraction.PixelsLeadToKernel | cad2ml/extraction.py:244-291 | with at most 65535 faces, a mask pixel k+1 back-projects onto a triangle in the range the index records under the name of face k, and that triangle is one the kernel made for the face at the recorded traversal index |
| Extraction.UnmaskedFace | cad2ml/representations/render.py:95-130 | from rank 65535 on the index counts no pixel of a face in any view |
| SampleStore.MoveAt | cad2ml/storage/base.py:116-127 | renaming a directory loses and invents nothing, key by key |
| SampleStore.LocalFSStore.PutBytes | cad2ml/storage/base.py:62-75 | a write happens whole or not at all, but may leave its directory |
| SampleStore.LocalFSStore.DeletePrefix | cad2ml/storage/base.py:109-114 | exactly the files below the directory go |
| SampleStore.LocalFSStore.PromotePrefix | cad2ml/storage/base.py:116-127 | the directory is renamed, or thrown away if the destination exists |
| SampleProcess.FinalizeFailure | cad2ml/pipeline.py:251-302 | timeouts and crashes leave an audit record only, retryable codes leave nothing, other codes become the sample's manifest |
| SampleProcess.ProcessSource | cad2ml/pipeline.py:88-248 | effect and result of one call are the specification's, for every way its steps can fail, with handler and clean-up |
| SampleRuns.ProcessKeeps | cad2ml/pipeline.py:88-248 | one call keeps the store sound whatever fails: no staging directory survives, and a completed manifest has everything it lists |
| SampleRuns.StoreIsSound | cad2ml/pipeline.py:88-302 | the same over every sequence of calls |
| SampleRuns.EmptyIsSound | cad2ml/storage/base.py:51-53 | the empty store is sound |
| SampleRuns.RunCalls | cad2ml/pipeline.py:88-248 | processing calls one after the other keeps the real store sound |
| SampleRuns.ReuseReturnsStored | cad2ml/pipeline.py:119-124 | a call that passes intake with reuse on returns the stored manifest and changes nothing |
| SampleRuns.CompletedSurvivesIff | cad2ml/pipeline.py:105-114 | with reuse on, a completed manifest survives a call exactly when no intake rejection is recorded over it |
| SampleRuns.OutcomeIsPinned | cad2ml/pipeline.py:119-124 | once a sample has an outcome, reusing calls that pass intake never change it, whatever is processed in between |
| SampleRuns.OtherSamplesUntouched | cad2ml/pipeline.py:130-248 | a call touches no directory of another sample |
| SampleRuns.TimeoutsPinNothing | cad2ml/pipeline.py:291-296 | a timeout or crash of a child changes no sample and no superseded version |
| SampleRuns.FailureIsStoredIff | cad2ml/pipeline.py:288-300 | a failing child, whether parser or extractor, gives a sample an outcome exactly when its code is neither retryable nor environmental |
| SampleRuns.CompletedIsStoredIff | cad2ml/pipeline.py:214-225 | a call that does its own work and returns a completed manifest has stored it exactly when no empty sample directory was in the way |
| SampleRuns.BlocksIff | cad2ml/pipeline.py:251-302 | a call leaves a sample directory without manifest exactly when recording a stored failure of intake, parser or extractor breaks off after making the directory |
| SampleRuns.BlockedDirectoryArises | cad2ml/pipeline.py:288-300 | an upload rejected at intake leaves such a directory on the empty store when its record breaks off |
| SampleRuns.FinishedSampleIsLost | cad2ml/storage/base.py:116-127 | after that, a call that works throughout returns a completed manifest the store does not hold |
| SampleVersions.RerunKeepsVersion | cad2ml/pipeline.py:216-224 | an explicit rerun that reaches the promotion leaves the stored version, file by file, in the directory of its stamp, if that did not exist, however the call ends |
| SampleVersions.VersionKeptIff | cad2ml/storage/base.py:116-127 | it keeps the version it replaces exactly when that directory did not exist or held the same |
| SampleVersions.VersionsStay | cad2ml/pipeline.py:105-248 | a call changes only its staging directory, its sample and the directory its replaced version goes to |
| SampleVersions.VersionsStayForEver | cad2ml/pipeline.py:216-224 | a version set aside stays as it is through every sequence of calls |
| SampleVersions.PublishedVersion | cad2ml/pipeline.py:212-230 | a call that publishes leaves in the sample's directory its manifest, its configuration and every artifact the child wrote, and nothing else |
| SampleVersions.StatusMeans | cad2ml/pipeline.py:79-84 | a failure is recorded as rejected, quarantined or failed exactly as its code says, in agreement with the state of the job |
| SampleVersions.FailureRecorded | cad2ml/pipeline.py:231-302 | a call one of whose children fails records it aside for timeouts and crashes, nowhere for transient faults and as the sample's outcome otherwise, returns the record, and changes nothing else but the sources |
| SampleVersions.IntakeRecorded | cad2ml/pipeline.py:104-114 | the record of an upload rejected at intake goes to the place of its code, over what was there, and nothing else changes |

## Left out

- Submission, the reap of one row and the worker's own retry are atomic steps of the transition system, apart from a process that stops inside them. Other steps in between are covered for a submission's lookup and insert (`JobRuns.RacesActAtomically`) and for the reap (`JobRecovery.StaleReapSafeIff`).
- Workers whose lease lapses while they run: the clock advances only as far as live workers have renewed. The compare-and-set has no owner check, so fencing is not claimed.
- Of the job table, the columns for errors, results, files and correlation, and the worker table.
- The normal and colour buffers of the renderer and its camera rig layout; float rounding, and the integer width of stored arrays other than the masks.
- JobRuns.JobsTerminate: counts state changes only, not `stage:` notes, which a worker may add without bound.
- Geometry: kernel parsing, repair, meshing, curvature, surface projection, coaxial grouping, and the predicates of the recognition rules.
- The collinear merge of `_recognize_holes`, which can put one segment's faces into two proposals; disjointness comes from the claims.
- RecognizerFeatures.Recognize: parameters, evidence texts and observations are not part of this model; rules are any functions that propose sorted, non-empty face lists.
- Near-duplicate safety in family mode: the builder merges near duplicates for group units only.
- Random draws are any permutations; splits are stated in terms of them.
- FaceGraphs.CheckGraph: feature dimensions and finiteness are not part of this model.
- Extraction.Extract: output checks on geometry (unit normals, distances, mesh area, back-projection tolerance) and the graph's serialisation round trip are not part of this model; they can only make an extraction fail.
- Serialisation to JSON, NPZ and PNG is taken to return what was stored; file names, key validation and size accounting are left out.
- SampleProcess.ProcessSource: removal of a tree is complete, reading a stored manifest succeeds, and calls run one at a time; concurrent calls on one store are not modelled.
- HTTP endpoints, the command line, training, evaluation, logging and metrics: plumbing.
