# Verified model of the Git content CSI driver

This project models, in Dafny, how the driver turns a volume request into a read-only directory at a
workload's target path, and proves properties of that model. It follows the driver's own parts:

- `Text`, `LexicalPath`, `SafePaths`: the path functions of Go's library, as string operations with a
  component-stack meaning, and the driver's path checks written with them (`safeJoin`, `ensureInside`,
  `validateSymlinkTarget`, `normalizeRepoPath`, `safeTargetPath`).
- `Trees`, `Links`, `FileSystems`: a mutable file system object with a map of nodes, modification times
  and a clock, the calls the driver makes on it, and symbolic links as the kernel follows them.
- `ContentTrees`, `Publishing`, `Metadata`: the recursive copy, the publishing copy and its mode
  changes, the counting walk, and the provenance files.
- `Commits`, `GoGit`, `Submodules`, `Backends`: commit trees by their leaves, the flat export, the
  submodules, and both backends' `Materialize`.
- `Eviction`, `Cache`, `Survival`: the accounting of eviction on surveyed entries, the survey and
  removals on the file system, and which entries survive a pass; the cache key.
- `Revisions`, `Volume`, `Policies`, `Admission`: parsing, reference selection, policy decisions, and
  the webhook.
- `Entries`, `Pipelines`, `NodePlugins`: one cache entry made by either backend, the mount pipeline, and
  the CSI node service with the run it has been through.

Methods that change state are proved against specification functions on trees; lemmas then relate
those functions to each other and to the promises of the driver.

Where the code does not do what one would expect of it, the exact condition is a theorem:

- Expired cache entries are credited twice, so a pass may leave more than the size limit:
  `Eviction.IntendedBoundExactly`.
- A link that climbs out of its root and re-enters it by name is accepted or refused depending on what
  the root is called, and links count as files in one backend only, so the two backends can disagree:
  `Backends.BackendsAgree`, with `Backends.BackendsCanDisagree`, `Backends.LinksTipLimit` and
  `Backends.LinkedSubPath` as inputs.
- The link check is lexical. Two links that pass it at every root can lead out of the root together:
  `Links.EscapingPair`; `Links.Contained` gives links that cannot. What is then written through the
  second link lands outside. Where such a link stands for `.gitcontent`, the provenance files do:
  `Metadata.ProvenanceEscapes`; provenance strays exactly when its links lead out, and a target keeps
  its tree in every run in which none has strayed into it: `NodePlugins.RunIsolation`,
  `Pipelines.TameSettles`.
- A listed file below a listed link is written through it: `GoGit.StrayWritten`. The export of a list
  changes nothing outside exactly when every file of it leads inside: `GoGit.ExportTree`. Isolation
  rests on the remote serving trees in which no leaf lies below another; the driver does not check
  that.
- The test that the git binary backend's sub-path is in the repository is lexical too: through a link
  the copied directory may be anywhere: `Backends.SourceEscapes`; it is inside exactly when the
  directory it is looked up in is: `Backends.SourceInside`.
- The age of a cache entry is that of the oldest thing in it, and the git binary backend keeps the
  repository in the entry. Once something that Git left there is older than the age limit, the
  eviction inside the next request removes the entry it has just filled, so its publish fails:
  `Pipelines.EntryExpiry`, `Pipelines.GitExpiry`, `NodePlugins.AgedFails`.
- For a URL whose scheme is not in lower case the policy checks another host than the one the parser
  accepted: `Volume.HostAgreement`, `Volume.HostsDiffer`.
- A tag called `HEAD` passes the policy as a tag and mounts the default branch, and a plain name passes
  as a branch and mounts a tag when the kind says so: `Revisions.ClassAgreement`, with
  `Revisions.HeadTag` and `Policies.TagBehindBranch` as inputs.
- The revision kind selects the ref and is no part of the cache key, so two requests that share an
  entry need not want the same content: `Pipelines.SharedEntryRef`.

`docs/implementation.md` line 53 speaks of least-recently-used eviction, while the code orders entries
by their oldest modification time; the model follows the code.

## Assumptions

- Strings are byte strings: a `char` stands for one byte.
- A checkout of a commit leaves exactly that commit's tree besides Git's own files, with directories
  of mode 0755 and files of mode 0644 or 0755.
- What the remote answers is a Git tree: leaves and submodules stand apart and have proper names.
- Roots and targets are absolute. Targets do not nest in each other or with the cache.
- `os.RemoveAll`, `os.ReadDir` and reads succeed; writes fail only for the reasons the model gives.
  The umask takes no bit away.
- File system calls follow links as the kernel does. No link stands at or above the cache root or in the
  place of an entry, and none above a target; the first is kept by everything the driver does.
- Git changes the repository directory alone. A copy that would enter its own destination does not
  succeed.
- Requests run one after another; the driver takes no lock per cache key.
- Directory entries, tree listings and map iteration come in any order; entries of equal age are
  sorted in their surveyed order.
- The digest of a cache key is a file name; `Pipelines.KeysTellApart` assumes it injective and
  credential profiles free of newlines.
- Time is the model's clock: it advances with every change and by a given amount before the eviction.
  A request that outlasts the age limit may find its own entry expired.

## Model

| member | source | states |
|---|---|---|
| NodePlugins.RunIsolation | cmd/nodeplugin/main.go:208-245 | Over every run of publishes, failed publishes, unpublishes, evictions and materialisations, with targets that do not nest in each other or with the cache, the tree at a target is exactly what its last successful publish put there, nothing is there after its last unpublish, and an untouched target is as before the run; the one exception is a target into which provenance written through links has strayed since |
| NodePlugins.OrderlySlots | cmd/nodeplugin/main.go:208-245 | In a run in which no provenance strays, only a target's own events decide what it holds |
| Pipelines.TameSettles | pkg/metadata/write.go:19-39 | When every link of the content is tame, its provenance stays inside it, so a request for it never strays |
| Backends.BackendsAgree | pkg/materializer/gitbinary.go:66-93 | At every sub-path the parser returns, limits included: both `Materialize` calls succeed or both fail if and only if accepted links and limits with links counted as files go with accepted links and limits without; with no link that climbs out and comes back by name, they differ only where links tip a limit; what they leave has the same paths, bytes, link targets and permissions apart from empty directories; where the in-memory backend finds no tree, the other can only succeed through a link |
| ContentTrees.CopyContentTree | pkg/materializer/gitbinary.go:310-361 | Nothing that stands is changed. From the tree the source path leads to, at a destination where nothing stands and no link above it, the walk succeeds exactly when the destination can be made, every copied link stays inside and the copy does not come to itself; then the destination is the pruned source, and whatever happens nothing outside it changes |
| Survival.FreshEntrySurvives | pkg/cache/cache.go:53-102 | The youngest entry of the cache survives a pass if and only if nothing in it is older than the age limit and it fits, by itself, the size limit plus the bytes of the other expired entries |
| Survival.EntrySurvives | pkg/cache/cache.go:53-102 | Any entry survives a pass if and only if it is live and it and the younger live entries fit the size limit plus the expired bytes |
| Eviction.EvictionBound | pkg/cache/cache.go:79-99 | As written: live survivors total at most the limit plus the bytes expired in the pass, and the live removals are the shortest oldest-first prefix that achieves it |
| Eviction.IntendedBoundExactly | pkg/cache/cache.go:79-99 | The intended limit holds of the code as written if and only if no oldest-first remainder of the live entries weighs more than the limit and at most the limit plus the expired bytes |
| Pipelines.KeysTellApart | cmd/nodeplugin/main.go:281 | Two admitted requests share a cache key if and only if repository, revision, sub-path, both flags and profile are equal, even when sub-paths hold newlines |
| Pipelines.SharedEntryRef | cmd/nodeplugin/main.go:281 | Two requests that share an entry select the same ref exactly when their revision kinds are alike for the revision |
| Admission.AdmissionRefinesMounting | cmd/admission-webhook/main.go:74-108 | In a nonempty namespace and whatever csi. keys Kubernetes adds, a pod is admitted exactly when each of its volumes of this driver is read-only and would pass the node plugin's gate |
| Revisions.ClassAgreement | pkg/materializer/gogit.go:71-80 | For every accepted revision and every kind string: the class the policy judged is the class the in-memory backend resolves if and only if a tag's ref is not called HEAD and a branch's kind does not mention tags (or its ref is HEAD) |
| LexicalPath.CleanLoop | pkg/materializer/materializer.go:44-60 | The component-stack loop behind `filepath.Clean` computes the normal form that all other path lemmas are about |
| LexicalPath.WalkMeaning | pkg/materializer/materializer.go:48 | Cleaning keeps meaning: from every directory the raw components lead where the normal form says |
| LexicalPath.JoinMeaning | pkg/materializer/materializer.go:55 | Joining a relative path to an absolute root is walking it from the root |
| LexicalPath.RelMeaning | pkg/materializer/materializer.go:34 | Between absolute paths `Rel` always answers, its answer is clean, and joining it back gives the cleaned target |
| LexicalPath.IsLocalMeaning | pkg/materializer/materializer.go:49 | `IsLocal` holds exactly of nonempty relative paths whose walk never rises above its start |
| SafePaths.InsideMeaning | pkg/materializer/materializer.go:33-42 | `ensureInside` passes exactly when the candidate is a component-wise descendant of the root |
| SafePaths.SafeJoinMeaning | pkg/materializer/materializer.go:44-60 | `safeJoin` accepts exactly the relative paths that never rise and name no `.git`; the result is the root extended by the cleaned path, and `Rel` recovers that path |
| SafePaths.LaterGuardsRedundant | pkg/materializer/materializer.go:49-58 | After the local test, neither the parent-segment test nor the final `ensureInside` can reject |
| SafePaths.NormalizeMeaning | pkg/volume/attributes.go:177-201 | The parser accepts exactly the relative sub-paths without backslash and `.git` that never rise, and returns the cleaned path, or nothing for the root |
| SafePaths.NormalizeIdempotent | pkg/volume/attributes.go:177-201 | Normalising twice is normalising once |
| SafePaths.ValidatorsAgree | pkg/materializer/gogit.go:107-111 | Parser, `safeJoin` and the in-memory backend's own test accept the same sub-paths, apart from the backslash only the parser refuses, and joining raw or normalised gives the same place |
| SafePaths.ParsedPathAccepted | pkg/materializer/gitbinary.go:66-76 | No sub-path the parser returns meets a lexical path error in either backend |
| SafePaths.TargetReconstruction | cmd/nodeplugin/main.go:369-391 | A target is accepted exactly when it is a strict descendant of the root, and the path rebuilt from the root is the cleaned candidate |
| SafePaths.LinkAcceptance | pkg/materializer/materializer.go:62-71 | A link is accepted exactly when its relative target never rises above the root or re-enters through the root's own trailing names |
| Links.Contained | pkg/materializer/materializer.go:62-71 | Physically: below a root whose links are relative, never rise above it and take no `..` after a link, no such walk is led out of the root, whatever links it meets |
| Links.EscapingPair | pkg/materializer/materializer.go:62-71 | Two links that the lexical check accepts at every root, the second of which leads to the parent of the root, and names below it to the names beside the root |
| Links.ChainLimit | pkg/metadata/write.go:34 | A lookup follows forty links and no more |
| SafePaths.LinkRelocation | pkg/materializer/gitbinary.go:344-352 | A link that never rises is accepted at every root and resolves to the same place relative to it |
| SafePaths.ReentryDependsOnRoot | pkg/materializer/materializer.go:62-71 | Re-entry by name does not carry over: for any two roots with different last names, one target is accepted at the first and refused at the second |
| ContentTrees.ClassifyMeaning | pkg/materializer/gitbinary.go:315-337 | On visited paths the lexical tests never refuse: they single out the root, the `.git` entries, and the place of every other entry |
| ContentTrees.CopyEntry | pkg/materializer/gitbinary.go:311-359 | What the callback does at each kind of entry, links on the way followed: skipped directories, refused links, taken places, and the one place that changes |
| ContentTrees.CopyRegularFile | pkg/materializer/gitbinary.go:364-388 | Exclusive creation where the path leads, with the source's bytes and no write bit; fails exactly when the directories cannot be made or the place is taken |
| ContentTrees.SwallowsMeaning | pkg/materializer/gitbinary.go:327-332 | A copy comes to its own destination exactly when that lies below the source with no `.git` on the way |
| FileSystems.FileSystem.WalkDir | pkg/materializer/gitbinary.go:311 | The walk lists every entry once, parents first, and ends because each child holds strictly less |
| FileSystems.FileSystem.WriteFile | pkg/metadata/write.go:34 | The file is written where its path leads, links followed, keeping the mode of one that is there; it fails exactly when the path leads nowhere or to something that is no regular file |
| FileSystems.FileSystem.MkdirAll | pkg/materializer/gogit.go:188 | A directory the path leads to will do; a missing one is made where its parent leads, or nothing is; the path then leads there |
| FileSystems.FileSystem.CreateLeaf | pkg/materializer/gogit.go:229 | A new file or link goes where the links above it lead, and is refused where anything stands |
| Publishing.ChmodReadOnly | cmd/nodeplugin/publish.go:24-45 | The walk makes directories 0555, strips write bits from regular files, leaves links, and touches nothing outside the root |
| Publishing.ChmodShape | cmd/nodeplugin/publish.go:24-45 | The modes it leaves: 0555 for directories, of every file the bits in 0555, anything else as it was |
| Publishing.PublishReadOnly | cmd/nodeplugin/publish.go:10-18 | Succeeds exactly when the source stands, its links stay inside and the target's ancestors are directories; then the target is the pruned, read-only source, whatever it held before |
| Publishing.Unpublish | cmd/nodeplugin/publish.go:20-22 | Exactly the target's subtree is removed |
| Publishing.PublishedShape | cmd/nodeplugin/publish.go:24-45 | Entry by entry: published are exactly the source's entries without `.git` and special files, the root and every directory of mode 0555, files with the source's bytes and those of its bits that are in 0555, links unchanged |
| Publishing.CopiedShape | pkg/materializer/gitbinary.go:310-388 | What a copy leaves: directories of mode 0755, files with those of the source's bits that are in 0555 |
| Publishing.PruneIdempotent | pkg/materializer/gitbinary.go:310-361 | The second copy loses nothing the first kept |
| Publishing.LinksRelocate | pkg/materializer/gitbinary.go:344-352 | A tree whose links never rise passes the link checks at every root, before and after pruning |
| Publishing.CountedSizes | pkg/materializer/fslimits.go:8-27 | What counts and for how much: files by their bytes, links by their text, special files for nothing, directories not at all |
| Publishing.CountFiles | pkg/materializer/fslimits.go:8-27 | The counters are the number and total size of the entries that are not directories |
| GoGit.ExportFile | pkg/materializer/gogit.go:179-206 | The callback on one listed file, whatever its name: what it writes and where, links followed, what it counts, and exactly when it refuses |
| GoGit.ExportTree | pkg/materializer/gogit.go:177-207 | No list changes what stands. Into a directory, nothing outside changes when every listed file leads inside, and after an export that succeeds only then. Listing a well formed commit into an empty directory in any order, no create collides, only an escaping link fails, nothing outside changes, the result is the commit's export, and the counters are its regular files and bytes |
| Backends.ExportedShape | pkg/materializer/gogit.go:177-237 | The export, entry by entry: files of mode 0444, or 0555 when executable, links with their text, directories of mode 0755 on the way to them, nothing else |
| GoGit.StrayWritten | pkg/materializer/gogit.go:177-237 | A list of two accepted links and a file below the second, exported into an empty directory: the file is written beside that directory, unless the name is taken there |
| Submodules.ExportSubmodules | pkg/materializer/gogit.go:250-290 | No links change what stands. Beside an exported commit from which they stand apart, succeeds exactly when every linked submodule is fetched, outside `.git` and keeps its links inside; nothing outside changes; then each submodule's export is in its place, the rest is untouched, and the counters are the files added |
| Submodules.WholeUnique | pkg/materializer/gogit.go:250-290 | Commit and submodules determine the written tree |
| Submodules.CountGraft | pkg/materializer/gogit.go:282-283 | Filling a free place adds exactly the files put there, in number and bytes |
| Backends.ResetContent | pkg/materializer/gogit.go:118-124 | Whatever the content directory held, it ends empty and new |
| Backends.MaterializeGoGit | pkg/materializer/gogit.go:56-159 | Succeeds exactly when the tree is there, the links stay inside and its content fits the limits; the content is that function of commit, sub-path and submodules, the result is the count and bytes of its regular files, all of it is new, and nothing beside it changes |
| Backends.LimitsMeaning | pkg/materializer/gogit.go:140-145 | A tree is let through exactly when each positive limit is not exceeded, by the number of its files and by their bytes, for either way of counting |
| Backends.GoGitSucceedsMeaning | pkg/materializer/gogit.go:56-145 | The in-memory backend succeeds exactly when the work directory can be made, the sub-path is a tree, links and submodules stay inside `content`, and neither limit is exceeded |
| Backends.LinksMeaning | pkg/materializer/gogit.go:209-218 | The links of a commit are accepted exactly when each outside every `.git` stays inside `content` |
| Backends.ModulesMeaning | pkg/materializer/gogit.go:250-290 | Submodules are accepted exactly when each is outside `.git`, fetched, and keeps its links inside its own directory |
| Backends.SelectedTree | pkg/materializer/gogit.go:106-115 | The selected tree is what lies below the names of the sub-path, if anything does; a refused sub-path selects nothing |
| Backends.PrivateWork | pkg/materializer/gogit.go:57 | The directories made on the way to the content are of mode 0750 |
| Backends.ContentExact | pkg/materializer/gogit.go:118-138 | A tree is a possible content of commit and submodules exactly when it is the one function of them: whatever the work directory held does not matter |
| Backends.MaterializeGitBinary | pkg/materializer/gitbinary.go:66-113 | From a checked-out repository, at any sub-path, links followed: succeeds exactly when the path leads to a real directory that stands without the content directory, whose links are accepted as seen from the path, that is not copied into itself and fits the limits; the content is that directory pruned and new, the counters are its files and links, and everything beside the content keeps its entries and times |
| Backends.GitSucceedsMeaning | pkg/materializer/gitbinary.go:66-108 | At a plain sub-path of a checkout the git binary backend succeeds exactly when something lies there, its links stay inside as seen from `repo`, and neither limit is exceeded with links counted |
| Backends.SourceInside | pkg/materializer/gitbinary.go:66-86 | The copied directory is in the repository if and only if the directory its path is looked up in is, or it is the repository itself |
| Backends.TameSource | pkg/materializer/gitbinary.go:66-86 | In a repository of tame links it always is |
| Backends.SourceEscapes | pkg/materializer/gitbinary.go:66-91 | A sub-path that every test accepts, through a link to the directory above, from which what stands beside the repository is copied |
| Backends.SameContent | pkg/materializer/gogit.go:177-237 | The recursive copy without its empty directories is the flat export, at every sub-path outside `.git` |
| Backends.GitReadyMeaning | pkg/materializer/gitbinary.go:66-90 | At a sub-path through no link the git binary backend accepts a checked-out commit exactly when there is a tree there and its links stay inside the copied directory |
| Backends.CopyCounts | pkg/materializer/fslimits.go:8-27 | The counters of the git binary backend are those of the in-memory backend plus the number and text bytes of the kept links |
| Backends.LinksTipLimit | pkg/materializer/fslimits.go:8-27 | For every commit with a kept file and a kept link there are limits that one backend passes and the other does not |
| Backends.LinkedSubPath | pkg/materializer/gitbinary.go:66-86 | A directory behind a link is copied by the git binary backend, its links checked as if it stood at the path, and is no tree for the other |
| Backends.BackendsCanDisagree | pkg/materializer/materializer.go:62-71 | A link to the repository directory by its own name is accepted by one backend and refused by the other |
| Pipelines.ContentPublishes | cmd/nodeplugin/publish.go:14-16 | What the in-memory backend has written, submodules included, always passes the link checks of the publishing copy |
| Pipelines.CopyPublishes | cmd/nodeplugin/publish.go:14-16 | What the git binary backend has copied passes them exactly when the links of its source stay inside as seen from the content directory |
| Pipelines.MadePublishes | cmd/nodeplugin/publish.go:14-16 | The provenance changes nothing about that, wherever it is written |
| Metadata.Write | pkg/metadata/write.go:19-39 | Where no link stands in the way, succeeds exactly when nothing of the wrong kind does; then each of the seven files holds its own text and a newline, new ones of mode 0644 in a directory of mode 0755, and the rest is as it was. Where a link does, the files are written exactly where the links lead, all of them exactly when each can be, and nothing else changes |
| Metadata.FieldTexts | pkg/metadata/write.go:24-32 | Which text belongs in which of the seven files |
| Pipelines.ProvenancePublished | cmd/nodeplugin/main.go:304-313 | What a workload reads of the request and the answer: repository, requested and resolved revision, time, policy, submodules flag and profile, each in its file |
| Metadata.ProvenanceConfined | pkg/metadata/write.go:19-39 | All of the written provenance is inside the content directory if and only if every link on its way leads inside, unless a file outside already held such a text |
| Metadata.ProvenanceStays | pkg/metadata/write.go:19-39 | When every link of the content directory is tame, every link on the way of the provenance leads inside |
| Metadata.WrittenMarks | pkg/metadata/write.go:19-39 | Provenance whose links lead inside is in the content and nowhere else: written over what the links lead to, or in the seven places where no link stands |
| Metadata.LinkedAccepted | pkg/materializer/materializer.go:62-71 | A commit of two links that the link check accepts at every root, one of them in the place of the provenance |
| Metadata.ProvenanceEscapes | pkg/metadata/write.go:19-39 | Over the export of that commit every provenance file is written into the directory above the content |
| Metadata.RepublishSame | pkg/metadata/write.go:24-37 | Writing at another time changes nothing published but `mounted-at` |
| Metadata.PublishedFileCount | pkg/metadata/write.go:24-37 | Publishing adds at most seven regular files to the content's |
| Pipelines.PublishedWithinLimits | pkg/policy/load.go:33-52 | Under loaded policies the file limit is positive and what the in-memory backend makes is published with at most that many regular files and seven more; its bytes are within the size limit |
| Pipelines.GitPublishedWithinLimits | pkg/policy/load.go:33-52 | The same of the git binary backend, whose links count as well |
| Pipelines.RepublishIdempotent | cmd/nodeplugin/main.go:304-313 | Republishing the same resolved commit, whatever happened between, gives the same tree except `.gitcontent/mounted-at`, where no link stands in the way of the provenance |
| Cache.New | pkg/cache/cache.go:24-38 | Succeeds exactly when a root is given and a directory can be made where it leads, of mode 0750; positive limits are kept, others become ten GiB and a day |
| Cache.DirInfo | pkg/cache/cache.go:104-131 | The survey of an entry is its total size and its oldest modification time |
| Cache.Survey | pkg/cache/cache.go:68-84 | The first loop surveys each directory once as it was at the start, removes exactly the expired ones, and totals the others |
| Cache.TrimEntries | pkg/cache/cache.go:94-100 | The second loop removes, oldest first, exactly as many surveyed entries as its total needs |
| Cache.Evict | pkg/cache/cache.go:53-102 | Every expired entry goes, and of the live ones the shortest oldest-first prefix that fits the limit plus the expired bytes; entries that stay and everything outside the root are untouched |
| Eviction.SortKeeps | pkg/cache/cache.go:90-92 | The sorted survey is a permutation, oldest first, with the same live total |
| Eviction.DoubleCredit | pkg/cache/cache.go:93-99 | Going through the expired entries a second time is, on the live ones, a trim to the limit plus the expired bytes |
| Eviction.AsWritten | pkg/cache/cache.go:86-99 | What both loops together do to the live entries |
| Eviction.IntendedVariant | pkg/cache/cache.go:79-99 | With nothing re-appended the intended bound always holds, and with nothing expired the code is that variant |
| Eviction.BoundCanFail | pkg/cache/cache.go:79-99 | A pass that keeps more than the limit, at every age limit |
| Eviction.SurvivesExactly | pkg/cache/cache.go:79-99 | A live entry stays if and only if it and all younger ones fit the limit plus the expired bytes |
| Cache.KeyInjective | pkg/cache/cache.go:40-47 | The newline-terminated encoding is injective when all parts but the path are free of newlines |
| Pipelines.EntryKeyText | cmd/nodeplugin/main.go:281 | What is hashed for a grant: its own repository, revision, sub-path, flags and profile, in this order |
| Cache.KeyText | pkg/cache/cache.go:40-47 | The text that is hashed, line by line |
| Survival.ExpiryMeaning | pkg/cache/cache.go:79-82 | An entry counts as expired if and only if something in it is older than the age limit |
| Pipelines.EntryExpiry | cmd/nodeplugin/main.go:329 | The entry a request has just made holds something too old if and only if something beside its content does as the backend found it, or the request has outlasted the age limit |
| Pipelines.GitExpiry | pkg/cache/cache.go:104-131 | In an entry of repository and content, what stands beside the content is too old if and only if something that Git left is |
| NodePlugins.AgedFails | cmd/nodeplugin/main.go:227-231 | Then a publish whose provenance does not stray fails, however new the content is |
| Volume.Parse | pkg/volume/attributes.go:25-90 | Step by step parsing returns exactly what the acceptance conditions of the ten attributes describe, each text from its own key; the emptiness tests are implied by the others |
| Volume.AcceptedRequest | pkg/volume/attributes.go:25-90 | A request is parsed exactly when repository, revision and sub-path are accepted and each option is absent or reads as a number or flag it may be |
| Volume.ParsedTexts | pkg/volume/attributes.go:28-33 | The six texts of a parsed request are the trimmed values of their own keys, the sub-path cleaned |
| Volume.ParsedOptions | pkg/volume/attributes.go:52-87 | Absent numbers are zero and absent flags off; others are the number read, and on for `true`, `1` and `yes` in any letter case |
| Volume.RepoMeaning | pkg/volume/attributes.go:92-121 | Accepted are exactly URLs with a host and one of three schemes, and user, host and path around an at sign and a colon, without white space and the forbidden prefixes |
| Volume.ParsedShape | pkg/volume/attributes.go:25-90 | Every parsed request has a one-line repository and revision that do not look like options, a sub-path in normal form and a nonnegative depth |
| Volume.ParseReads | pkg/volume/attributes.go:25-90 | The parser's answer depends on its ten keys alone |
| Volume.ScpMeaning | pkg/volume/attributes.go:115-121 | Without indices: the scp form is a nonempty user, host and path split at the first separators, and the policy extracts that host |
| Volume.PolicyHost | pkg/policy/evaluator.go:101-116 | The host the policy looks at, for URLs in the three spellings and for the scp form |
| Volume.HostAgreement | pkg/policy/evaluator.go:101-116 | For every accepted repository the host the policy checks is the nonempty host of the address if and only if it is no URL, is spelled with a scheme the policy looks for, or happens to have that host in its scp reading |
| Volume.HostsDiffer | pkg/volume/attributes.go:92-121 | With the scheme in capitals, an accepted URL of one host of which the policy reads another, for any two hosts |
| Revisions.IsHexSHA | pkg/volume/attributes.go:147-157 | The parser's and the policy's loop decide the forty hex digits |
| Revisions.IsPinnedCommit | pkg/materializer/materializer.go:91-102 | The materialiser's test decides the same set of strings |
| Revisions.RefNameMeaning | pkg/volume/attributes.go:159-175 | Half of the reference name tests are implied by the others: what is left is a plain grammar |
| Revisions.RevisionMeaning | pkg/volume/attributes.go:123-145 | Accepted are exactly one-line strings without white space or a leading dash that are forty hex digits or, after at most one prefix, a name of the grammar |
| Revisions.AcceptedShape | pkg/volume/attributes.go:123-145 | An accepted revision is one nonempty line, not an option, and names something free of colons after its prefix |
| Revisions.ExactlyOneClass | pkg/policy/evaluator.go:57-59 | The policy's three tests single out exactly one class for every string |
| Revisions.ClassMeaning | pkg/policy/evaluator.go:57-59 | Each class by its spelling |
| Revisions.HeadMeaning | pkg/materializer/gogit.go:71 | `HEAD`, letter by letter in either case |
| Revisions.MutableRefMeaning | pkg/materializer/materializer.go:104-127 | For every accepted revision and every kind, at most one known prefix is stripped, the ref is empty only for a commit and never starts with a dash |
| Revisions.MatchingKindResolves | pkg/materializer/gogit.go:166-175 | With no kind, or the kind of its class, a revision resolves to itself when a commit and otherwise to the ref of its class and name, or to the default branch when called HEAD |
| Revisions.HeadTag | pkg/materializer/gogit.go:71-80 | In any letter case and in both spellings, a tag called HEAD is accepted as a tag and resolves to the default branch |
| Revisions.KindSelects | pkg/materializer/materializer.go:104-127 | For every accepted revision, exactly which two kinds select the same ref |
| Revisions.OperandChecksRedundant | pkg/materializer/gitbinary.go:120-205 | For what the parser accepts, no operand check fires in clone, fetch or checkout; the arguments of clone and fetch are these, and checkout resolves the expected ref |
| Revisions.FlagMeaning | pkg/materializer/gitbinary.go:260-265 | An operand is refused exactly when it starts with two dashes |
| Revisions.StringTrim | pkg/materializer/gitbinary.go:394-399 | The trimmed output is the longest prefix that does not end in a line end or a space |
| Policies.SelectionMeaning | pkg/policy/evaluator.go:83-99 | The selected policy is the first that governs namespace and name; none when none does |
| Policies.GovernsMeaning | pkg/policy/evaluator.go:83-99 | A policy governs requests that name it or none, of the namespaces it lists, or of all |
| Policies.EvaluateMeaning | pkg/policy/evaluator.go:15-54 | A request is allowed, and with a given profile, exactly when the first policy that governs permits its repository, host, submodules, LFS, depth, revision and profile, each spelled out |
| Policies.JudgeMeaning | pkg/policy/evaluator.go:21-51 | Otherwise the reason is the first of these that is not permitted |
| Policies.RevisionRules | pkg/policy/evaluator.go:56-81 | The revision rules class by class, as one equivalence |
| Policies.TagBehindBranch | pkg/policy/evaluator.go:56-81 | A plain name passes rules that allow branches and no tags, and resolves to the tag with the kind `tag` |
| Policies.AllowedHolds | pkg/policy/evaluator.go:15-54 | An allowed request rests on the first policy that governs it and is permitted by it in every respect; the host of the accepted address is then one of its hosts, unless it is a URL in a spelling the policy does not know |
| Policies.AppendingPolicies | pkg/policy/evaluator.go:15-19 | Appending policies changes no verdict other than a missing policy, and that one becomes the verdict of the appended policies |
| Policies.WideningKeeps | pkg/policy/evaluator.go:21-51 | Enlarging repository, host and profile lists never turns allow into deny, nor changes the profile |
| Policies.ApplyDefaults | pkg/policy/load.go:33-52 | In place, one policy gets its defaults and no other policy changes |
| Policies.LoadPolicies | pkg/policy/load.go:26-28 | The loop over the slice leaves every policy with its defaults |
| Policies.DefaultsMeaning | pkg/policy/load.go:33-52 | Defaults replace exactly the limits that are not positive, by one and ten for depths, thirty seconds, a hundred MiB, five thousand files and one for submodules; they change a policy exactly when some limit was not positive, and are idempotent |
| Policies.LoadedVerdicts | pkg/policy/load.go:15-31 | Loading changes verdicts only by capping the depth at ten where a policy set no cap |
| Admission.Validate | cmd/admission-webhook/main.go:74-108 | The early-exit loop admits a pod exactly when every volume of the driver is read-only and passes the parser and the policies |
| Admission.GatesAgree | cmd/nodeplugin/main.go:222-276 | The node plugin's parser and policies give exactly what the webhook's gave: the same refusal, or the same attributes, policy and profile |
| Admission.GateMeaning | cmd/nodeplugin/main.go:252-271 | A grant is given exactly when the request is parsed and the first policy that governs permits what its attributes ask for; it holds these attributes, that policy and the profile asked for or the default |
| Admission.NamespaceMeaning | cmd/nodeplugin/main.go:222-225 | The namespace is that of the volume context, or `default` |
| Entries.MaterializeEntry | cmd/nodeplugin/main.go:289-313 | For either backend: fails exactly when the backend makes no content or the provenance cannot be written. Where the provenance stays inside the content, through links or not, the entry then holds the marked content, all of it new, nothing outside the entry changes and what stands beside the content is as the backend found it. Where links lead it out, only the entry and the places they lead to change |
| Entries.MakeContent | pkg/materializer/gogit.go:56-159 | Either backend: content is made exactly when its tree, links and limits allow it, laid out in the entry and new |
| Entries.CanMakeMeaning | cmd/nodeplugin/main.go:289 | In memory, content is made exactly when directories, tree, links and submodules allow it and the limits of the grant's own policy are not exceeded |
| Entries.CanCopyMeaning | cmd/nodeplugin/main.go:289 | From a checkout, exactly when Git succeeded, the source is accepted, does not hold the content directory, and the limits of the grant's policy are not exceeded |
| Entries.ListedThere | pkg/materializer/gogit.go:106-115 | Submodules are listed only for a sub-path at which there is a tree |
| Pipelines.EntryStored | cmd/nodeplugin/main.go:329 | What the eviction inside a request does to the entry just made: it goes when it counts as expired; in memory it stays if and only if it is no older than the age limit and fits, with its two directories, the size limit plus what else has expired; what stays is the marked content |
| Pipelines.Materialize | cmd/nodeplugin/main.go:255-332 | Succeeds exactly when the request passes the gate, its backend makes content and the provenance can be written; everything it changes is in the cache, unless links lead the provenance out of the content; what it returns holds the marked content exactly if the eviction spares it |
| NodePlugins.StepSpares | cmd/nodeplugin/main.go:227-231 | One step of the node leaves every other target's tree alone |
| NodePlugins.TargetReachable | cmd/nodeplugin/publish.go:10-18 | Whether a target's directories can be made does not depend on work in the cache |
| NodePlugins.PublishVolume | cmd/nodeplugin/main.go:222-235 | The outcome of an attempt with either backend: success exactly when content is made and marked, spared, its links stay inside it and the target is reachable; the target then holds it read-only; otherwise which targets may have changed, and where provenance has strayed |
| NodePlugins.Node.NodePublishVolume | cmd/nodeplugin/main.go:208-235 | A request without volume id, target, mount capability or read-only flag changes nothing and fails; otherwise the outcome is the next event of the node's run |
| NodePlugins.Node.NodeUnpublishVolume | cmd/nodeplugin/main.go:237-245 | Exactly the target's tree is removed, as the next event of the run |
| NodePlugins.Node.Mount | cmd/nodeplugin/main.go:126 | Without a target, the HTTP endpoint succeeds exactly when content is made and marked, and changes the cache alone, but for provenance that strays |
| NodePlugins.Node.Isolation | cmd/nodeplugin/main.go:208-245 | At every state the service can reach, each target holds what its run says |
| NodePlugins.Node.KeepsForm | cmd/nodeplugin/main.go:208-245 | An orderly run with the in-memory backend keeps the cache to content directories alone, where survival of what is made is settled by request, remote and clock |

## Left out

- Cloning, fetching, authentication, subprocess environment, user switching and `.gitmodules` parsing: the resolved commit and the submodules are given.
- What a later fetch does to the local refs of the git binary backend: it rests on Git's own rules.
- gRPC, HTTP, JSON and YAML plumbing, metrics, events, endpoint parsing and error codes.
- `filepath.Match`, `regexp`, `url.Parse`, `strings.TrimSpace`, `strings.ToLower` and `strconv.Atoi`: parameters shared by all callers.
- Concurrent requests on one cache key: nothing in the code serialises them.
- The link that the HTTP endpoint places at a target: it aliases the cache on purpose, so isolation does not apply; only its target check is modelled.
- Trees left by a failed publish, and by one whose provenance has strayed: the target is unknown until the next successful call on it.
- NodePlugins.PublishVolume: where links lead the provenance out of the content, says where the files may have been written and promises no success.
- Submodules.ExportSubmodules: for links that do not stand apart from the commit, promises only that nothing that stands is changed.
- `chownTree`, clone depths and timeouts, which do not affect paths, bytes or permissions.
- `filepath.Rel` with a relative base, and the system's own limits on link texts and names.
- Backends.MaterializeGitBinary: starts after clone and checkout; what Git leaves in the repository directory, its submodules included, is given.
- Backends.BackendsAgree: for commits without submodules.
- Policies.WideningKeeps: branch and tag patterns are not among the lists, because adding a first pattern narrows what an empty list allows.
