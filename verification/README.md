# Verified model of the mod_mp media server

This project models the algorithms of an Apache module that indexes, transcodes and serves
music, together with the parts of its web client that talk to it, and proves what they promise.
It covers:

- the decoding queue shared by all server processes: two bit masks and a list of slot numbers
  threaded through a fixed array, its refinement of a first-in first-out queue over every run,
  and the protocol of the request handlers and encoder threads that use it;
- the FLAC and MP3 adapters that turn what a decoder library delivers into planes of samples;
- the client's shuffle and the bookkeeping of song positions around it;
- the JSON answers: printing, a grammar and parser for what is printed, and the way back;
- reading a request's URI, its WHERE words, its sort order, and the client's paged fetching;
- the directory scan into a heap list, and the progress computed while walking it;
- the lock-free append to the shared list of error messages.

Machine words are masks of one bit per queue slot, so every queue theorem holds for any number
of slots; 64 is one instance. `Masks` ties the masks to the numbers they denote. Code that
updates objects or buffers is written as classes and methods over them, proved equal to
functions on values; whole runs are then reasoned about on those functions. Concurrency is a
state machine whose actions are the critical sections and the atomic steps between them.

## Where the code does not do what it is for

Each of these is proved, with the exact condition under which the code is right.

- An add that finds every slot occupied returns with the lock held; no critical section can run
  after it, and the queue never changes again (`QueueRuns.StuckExactlyWhenFull`,
  `Lookups.LockLostExactlyByFullAdd`).
- A request looks a job up in one critical section and adds it in another, so the same job can
  enter the queue twice (`Transcoder.LookupThenAddIsNotAtomic`). It never does in a run exactly
  when no accepted add meets a match of its job, which is the test the code would have to repeat
  before adding (`Duplicates.SingleExactlyWhenAddsMeetNoMatch`); so it never does while no other
  request adds the same job between a lookup and its add (`Lookups.UndisturbedStaySingle`).
- No waiting job is left without a thread exactly because the counter the spawn test reads is
  never changed (`Transcoder.NoJobStranded`).
- With two adders or more, an error message can be given a slot behind the end of the table
  (`ErrorLog.TableSufficesExactlyForOneAdder`, `ErrorLog.BoundIsReached`).
- The channel table gives Vorbis order except for seven channels
  (`FlacFile.VorbisOrderExceptSeven`): FLAC orders the seven channels of a 6.1 stream as section
  9.1.3 of RFC 9639 says, Vorbis as section 4.3.9 of the Vorbis I specification says.
- A JSON answer whose texts hold a control character is not a JSON text
  (`JsonOutput.StatusReadsBack`, `JsonOutput.QueryReadsBack`). A NULL column reads back as the
  text `(null)`.
- A folder that cannot be opened loses the end of the file list, and a file reached behind it is
  written through a null pointer: the scan crashes exactly then, and lists every file otherwise
  (`DirList.CrashesExactlyOnFileAfterClosed`, `DirList.ClosedFolderFirstCrashes`).
- A `*` in a pattern turns a literal `%` or `_` in the same pattern into a wild card, and quotes
  and backslashes are not escaped; the condition for a pattern to keep its meaning is exact
  (`WhereConditions.WildcardKeepsMeaning`). An accepted list of ids may still be malformed
  (`WhereConditions.AcceptedIdsWellFormed`). A date goes into the condition without quotes, and is a
  text literal only if the client has quoted it (`WhereConditions.DateNeedsItsQuotes`).
- The length of a URI's command is negative exactly when a `?` comes before the second slash
  (`Uri.NegativeExactlyWhenQuestionFirst`).
- An MP3 file is encoded whole exactly when its reads, up to one behind which nothing was
  decoded, are non-empty runs of complete frames with no change of format: the adapter returns
  0 for a change of format, and the encoder stops at the first 0
  (`Mp3File.NothingDroppedExactlyForWholeFrames`).

## Files

`Masks`, `Options`, `Decimals`, `Strings`, `Sequences` and `Arithmetic` hold what the others
share. `DecodingQueue`, `SharedQueue`, `QueueRuns`, `Transcoder`, `Duplicates`, `Lookups`,
`Service` and `Liveness` are the queue: its state and invariant, the shared object, whole runs, its
clients, when they keep every job once, what each of them goes on to do, in which order the jobs are
taken, and that the clients come to rest. `FlacFile`
and `Mp3File` are the codecs, `Shuffle` and `Playlist` the playlist, `JsonString`, `JsonGrammar` and
`JsonOutput` the JSON answers, `DirList` the directory scan, `ErrorLog` the error list, `Uri`,
`WhereConditions`, `SortOrder` and `MusicQuery` the requests. `dafny verify dfyconfig.toml` checks
them all.

## Model

| member | source | states |
|---|---|---|
| Masks.FlagValue | src/indexers/music/decoding_queue.c:130 | The mask of slot i denotes 2 to the power of width - 1 - i, the shifted one of the source |
| Masks.DecrementValue | src/indexers/music/decoding_queue.c:205-206 | The borrow through the low bits is subtraction of one modulo 2 to the width |
| Masks.DropLowest | src/indexers/music/decoding_queue.c:206 | x & (x - 1) clears exactly the lowest set bit of a non-zero word |
| Masks.SetAndClear | src/indexers/music/decoding_queue.c:133-137 | Or with a slot's flag, and And with its complement, change that slot's bit and no other |
| Masks.LeadingZerosLeast | src/indexers/music/decoding_queue.c:165-171 | The number of leading zeros of a non-zero word is its least set slot |
| Masks.PopCount4 | src/indexers/music/decoding_queue.c:200-207 | The counting loop ends and returns the number of set bits |
| DecodingQueue.InitialValid | src/indexers/music/decoding_queue.c:59-62 | The queue as created is empty and satisfies the invariant, whatever the shared memory holds in its slots |
| DecodingQueue.HeadInRange | src/indexers/music/decoding_queue.c:124-130 | In every state that keeps the invariant a non-empty queue has its head at a waiting slot, so the range error is never reported |
| DecodingQueue.LineIsPopCount | src/indexers/music/transcoder.c:396 | The length of the line is the number of waiting bits, and no slot is both waiting and working |
| DecodingQueue.FreeSlot | src/indexers/music/decoding_queue.c:158-166 | The free mask is zero exactly when every slot is occupied, and otherwise its leading zeros name a free slot |
| DecodingQueue.AddRefines | src/indexers/music/decoding_queue.c:148-198 | Adding keeps the invariant, appends the job to the line in a slot that was free, and is refused exactly when waiting and working slots fill the array; then nothing changes but the lock. The slot takes the whole job over but for its place, and every other slot keeps everything, status and progress included, but its link |
| DecodingQueue.GetRefines | src/indexers/music/decoding_queue.c:112-146 | Getting keeps the invariant, hands out the front of the line unchanged and marks a slot working that was not, and returns nothing exactly when the line is empty |
| DecodingQueue.ReleaseRefines | src/indexers/music/transcoder.c:202-208 | Clearing the working bit of a held slot frees that slot and changes neither the line nor any job |
| DecodingQueue.ScanRefines | src/indexers/music/decoding_queue.c:210-261 | A lookup keeps the invariant, the line and the masks; the slots that match are exactly the occupied ones with the wanted source and output type, and each gets its own number into its status while nothing else changes |
| SharedQueue.Queue.constructor | src/indexers/music/decoding_queue.c:57-62 | The shared object starts as an empty, valid, unlocked queue |
| SharedQueue.Queue.Get | src/indexers/music/decoding_queue.c:112-146 | The in-place updates are the get step, started with the head in range |
| SharedQueue.Queue.Add | src/indexers/music/decoding_queue.c:148-198 | The in-place updates are the add step; the lock is left held exactly when -1 is returned |
| SharedQueue.Queue.Insert | src/indexers/music/decoding_queue.c:158-197 | The same for the critical section's body on any well-shaped queue |
| SharedQueue.Queue.Release | src/indexers/music/transcoder.c:202-208 | The in-place update is the release step |
| SharedQueue.Queue.Exists | src/indexers/music/decoding_queue.c:210-261 | The scan meets every occupied slot once in increasing order, returns the number of slots with the caller's source and output type, and leaves the pointer at the greatest of them, or at the caller's own job when there is none, although the key is read through that moving pointer |
| SharedQueue.Queue.Scan | src/indexers/music/decoding_queue.c:223-252 | The same for the loop itself, without the invariant of the queue |
| SharedQueue.NextJob | src/indexers/music/decoding_queue.c:234-236 | The loop's step clears the visited slot and moves to the next set one; fewer remain |
| SharedQueue.LastMatchKey | src/indexers/music/decoding_queue.c:240-243 | The key behind the pointer matches the same jobs as the caller's own key at every moment |
| QueueRuns.StepKeeps | src/indexers/music/decoding_queue.c:112-261 | Every critical section keeps the invariant, and only an add to a full queue leaves the lock held |
| QueueRuns.FirstInFirstOut | src/indexers/music/decoding_queue.c:112-198 | In every run jobs come out in the order they were accepted, and accepted = waiting + working + released |
| QueueRuns.StuckExactlyWhenFull | src/indexers/music/decoding_queue.c:159-162 | The lock is held at the end of a run exactly when its last event is an add that met as many accepted, unreleased jobs as slots; no event can follow |
| QueueRuns.BusySlotKept | src/indexers/music/decoding_queue.c:112-198 | Until it is returned a working slot keeps its job and progress, and its status but for lookups: no add fills it and no get hands it out |
| QueueRuns.BusySlotKeptOverRun | src/indexers/music/transcoder.c:120-209 | The same over any stretch of a run that does not return the slot |
| QueueRuns.AddMatches | src/indexers/music/decoding_queue.c:178-185 | An accepted add raises the count of exactly the keys it matches, by one |
| Transcoder.ActionKeepsInv | src/indexers/music/transcoder.c:98-219 | Every step of every request and encoder thread keeps the queue and ownership invariants; the slot given back is the one taken, with the job taken |
| Transcoder.WorkersOwnTheirSlots | src/indexers/music/transcoder.c:120-209 | In every reachable state the working slots are held by exactly one thread each, and hold the job it took |
| Transcoder.ActionKeepsAttended | src/indexers/music/transcoder.c:394-420 | While the spawn test passes, no step leaves waiting jobs with neither a thread nor a request about to start one |
| Transcoder.NoJobStranded | src/indexers/music/transcoder.c:394-420 | No reachable state strands a waiting job, if and only if the counter in the spawn test is below four |
| Transcoder.StrandingRun | src/indexers/music/transcoder.c:405 | With the counter at four or more, the first request of all is stranded |
| Transcoder.LookupThenAddIsNotAtomic | src/indexers/music/transcoder.c:394-399 | Two requests for one job can both find nothing and both add it |
| Transcoder.FrontJobCanBeServed | src/indexers/music/transcoder.c:120-209 | Whenever jobs wait attended and the lock is free, some three steps or fewer of threads and requests already there hand the front job out |
| Duplicates.AcceptedSingle | src/indexers/music/decoding_queue.c:158-197 | With every job at most once in the queue, an accepted add keeps it so if and only if the queue holds no match for its job |
| Duplicates.SingleExactlyWhenAddsMeetNoMatch | src/indexers/music/transcoder.c:394-399 | In every run of the two-step protocol no job is ever in the queue twice if and only if no accepted add meets a match of its job |
| Lookups.AddsExactlyAfterEmptyLookup | src/indexers/music/transcoder.c:394-399 | After any run a request can add its job if and only if the lock is free, its lookup met no waiting or working job with the same source and output type, and it has not added it yet |
| Lookups.FoundNeverAdds | src/indexers/music/transcoder.c:394-420 | A request whose lookup met its job neither adds it nor starts a thread at any step of any run |
| Lookups.StartsExactlyAfterAdd | src/indexers/music/transcoder.c:399-420 | After any run a request can go on to its spawn test if and only if its add found a free slot and it has not been there yet; a thread comes into being exactly when the counter is below four |
| Lookups.UndisturbedStaySingle | src/indexers/music/transcoder.c:394-399 | In every run in which no other request adds a job of the same source and output type between a lookup and its add, no job is ever in the queue twice |
| Lookups.LockLostExactlyByFullAdd | src/indexers/music/decoding_queue.c:153-162 | At every moment of every run the lock is left held if and only if some add met a full queue; from then on no step changes the queue |
| Service.IsQueueRun | src/indexers/music/transcoder.c:98-420 | Every run of requests and threads is a run of the queue whose events are its lookups, adds, gets and returns, each with the request's job or the thread's slot |
| Service.TakenInOrder | src/indexers/music/decoding_queue.c:112-198 | In every run the threads take the jobs in the order in which the requests added them, each once, and what was added and not taken is in line |
| Liveness.ActionLowersWork | src/indexers/music/transcoder.c:98-219 | Every step but a new request lowers a measure on waiting jobs, requests and threads; a request adds nine to it |
| Liveness.EveryScheduleServesAll | src/indexers/music/transcoder.c:394-420 | With the spawn test passing, every run of n requests under every schedule has at most 10 n steps, and where it stops with the lock free every request is done, every thread has left and no job waits or is being worked on |
| FlacFile.PermuteIsBijection | src/indexers/music/codecs/flac/flac.c:30-40 | Each row of the channel table drops and doubles no channel |
| FlacFile.VorbisOrderExceptSeven | src/indexers/music/codecs/flac/flac.c:28-40 | The table puts every speaker in its Vorbis place if and only if there are not seven channels |
| FlacFile.RowHoldsSpeakers | src/indexers/music/codecs/flac/flac.c:52-56 | A row holds, where Vorbis has a speaker, the sample of the FLAC channel of that speaker, divided by two to the bits less one; for seven channels it follows the order 0, 2, 1, 4, 5, 6, 3 |
| FlacFile.StreamAt | src/indexers/music/codecs/flac/flac.c:133-153 | Sample t of the frame of a decoder step that is reached is row number t behind all samples of the steps before |
| FlacFile.StreamLength | src/indexers/music/codecs/flac/flac.c:62-66 | The stream ends behind the samples of the step that fails or ends it, or of the last |
| FlacFile.StreamHoldsSamples | src/indexers/music/codecs/flac/flac.c:133-153 | The stream holds every sample the decoder delivers and no others, each in its row, in its speaker's place, at its scale |
| FlacFile.Flac.constructor | src/indexers/music/codecs/flac/flac.c:156-184 | Opening a file, with its priming call to the decoder, loses none of the stream |
| FlacFile.Flac.ResizeBuffer | src/indexers/music/codecs/flac/flac.c:76-109 | The buffer gets the requested dimensions and is empty, whether or not it is allocated anew |
| FlacFile.Flac.Write | src/indexers/music/codecs/flac/flac.c:133-153 | An empty buffer takes up the whole scaled frame |
| FlacFile.Flac.ProcessSingle | src/indexers/music/codecs/flac/flac.c:63-66 | The decoder is run on an empty buffer only, and what it delivers plus what it will deliver is what it would have delivered |
| FlacFile.Flac.Refill | src/indexers/music/codecs/flac/flac.c:62-66 | Running the decoder and noting the end of the stream leaves the samples still to come the same |
| FlacFile.Flac.CopyLoops | src/indexers/music/codecs/flac/flac.c:52-58 | The copy loops put the next samples in Vorbis channel order behind the ones already there, all indices in bounds |
| FlacFile.Flac.CopyOut | src/indexers/music/codecs/flac/flac.c:49-61 | That, and the copied samples leave the buffer and no others |
| FlacFile.Flac.Process | src/indexers/music/codecs/flac/flac.c:43-73 | A request gets exactly the next min(requested, remaining) samples; a short or empty return happens only at the end of the stream, with everything delivered |
| FlacFile.DeliveriesArePrefix | src/indexers/music/codecs/flac/flac.c:43-73 | For any request sizes the deliveries joined up are the stream's prefix of their total length |
| FlacFile.Serve | src/indexers/music/codecs/flac/flac.c:43-73 | The adapter, asked with any sequence of sizes, makes those deliveries |
| FlacFile.EncodeAll | src/indexers/music/codecs/flac/flac.c:177-184 | Asking for a fixed amount until nothing comes yields every sample of the file once, in order |
| FlacFile.EncodeFile | src/indexers/music/codecs/flac/flac.c:156-184 | From opening a file to its end the encoder gets exactly its samples, each in its row, in its speaker's place, at its scale |
| Mp3File.IndexIsBijection | src/indexers/music/codecs/mp3/mpg123.c:202-207 | Every position of the complete frames is the index of exactly one sample of one channel |
| Mp3File.IndexBelow | src/indexers/music/codecs/mp3/mpg123.c:205 | Every source index used lies inside the scratch buffer |
| Mp3File.ProcessMp3File | src/indexers/music/codecs/mp3/mpg123.c:171-215 | The number of complete frames is returned, or 0 for need-more and new-format; plane k gets sample j * channels + k of each, and everything else in the planes is untouched |
| Mp3File.DealOut | src/indexers/music/codecs/mp3/mpg123.c:202-207 | The two loops fill exactly the first count samples of every plane |
| Mp3File.ReinterleavedIs | src/indexers/music/codecs/mp3/mpg123.c:202-207 | Interleaving the planes again gives the samples of the complete frames |
| Mp3File.DealtOutAgain | src/indexers/music/codecs/mp3/mpg123.c:202-207 | Dealing out interleaved planes gives the planes back |
| Mp3File.Request | src/indexers/music/codecs/mp3/mpg123.c:171-215 | What the encoder reads off the planes after one call are the call's complete frames, interleaved, or nothing when it returned 0 |
| Mp3File.EncodeAll | src/indexers/music/codecs/ogg/ogg_encode.c:100-118 | Asking until a call returns 0 gives the encoder the complete frames of the calls before it |
| Mp3File.NothingDroppedExactlyForWholeFrames | src/indexers/music/codecs/mp3/mpg123.c:189-212 | That is every decoded sample if and only if, up to some call behind which nothing was decoded, every call delivers a non-empty run of complete frames and reports neither need-more nor a new format |
| Shuffle.OrderIsPermutation | data/www/javascript/ui/playlist.js:86-97 | Every sequence of choices gives a permutation |
| Shuffle.EveryPermutationReached | data/www/javascript/ui/playlist.js:86-97 | Every permutation is given by some sequence of choices |
| Shuffle.ChoicesRecovered | data/www/javascript/ui/playlist.js:86-97 | The choices can be read off the permutation they gave |
| Shuffle.DifferentChoicesDiffer | data/www/javascript/ui/playlist.js:86-97 | No two sequences of choices give the same permutation |
| Playlist.IndexOf | data/www/javascript/ui/playlist.js:60-67 | The first position of an id, or -1 when it is not there |
| Playlist.Playlist.ChangePlaylistSongs | data/www/javascript/ui/playlist.js:69-79 | The songs are replaced and the playing index is looked up by the playing song's id; it throws exactly when no song is playing, and then keeps the index |
| Playlist.Playlist.ShuffleSongs | data/www/javascript/ui/playlist.js:82-104 | The songs are arranged by the choices; with no song twice, every position but the first carries its own number, and the first too unless no step chose it; with distinct ids the playing index still denotes the playing song |
| Playlist.Playlist.PlaceSong | data/www/javascript/ui/playlist.js:90-96 | One step moves the chosen song to the end, puts the next song in its place and keeps the back-pointers right |
| Playlist.Playlist.UpdateTableIndexs | data/www/javascript/ui/playlist.js:110-123 | Each song in turn takes the table index of the first remaining record with its id; songs without one are counted, a song there twice ends with the last index it was given, and no other field changes |
| Playlist.OnePlaceOneIndex | data/www/javascript/ui/playlist.js:111-120 | A song that is there once ends with what its own place was given |
| Playlist.AllAssignedExactlyWhenSameIds | data/www/javascript/ui/playlist.js:110-123 | Every song finds a record and none is left over if and only if both list the same ids equally often |
| Playlist.AssignedRecord | data/www/javascript/ui/playlist.js:111-120 | With distinct ids each song takes the index of the record with its id |
| Playlist.PlayingSongFollowed | data/www/javascript/ui/playlist.js:69-79 | After any rearrangement of songs with distinct ids the lookup by id finds the playing song itself |
| JsonString.EscapeChar | src/util_json.c:5-29 | The loop over the growing string ends and gives the character-by-character escape; NULL stays NULL |
| JsonString.EscapeLength | src/util_json.c:15-26 | The result is longer by the number of quotes and backslashes |
| JsonString.EscapeAppend | src/util_json.c:15-26 | Escaping goes character by character and puts a backslash before a quote or a backslash and before nothing else |
| JsonString.EscapeRoundTrip | src/util_json.c:5-29 | The result is a string body of section 7 of RFC 8259 if and only if the input has no character below 32, and unescaping then gives the input |
| JsonGrammar.ParseExactlyDerives | src/output.c:38-49 | The parser the round trips use accepts exactly the texts the grammar of sections 2 to 7 of RFC 8259 derives from the values printed here |
| JsonGrammar.LaidTextParses | src/output.c:38-49 | Text laid out to carry a value parses as that value exactly when its strings are clean |
| JsonOutput.PrintErrors | src/error_messages.c:100-118 | The loop appends the whole list, with its commas, for any number of errors |
| JsonOutput.PrintStatus | src/output.c:38-49 | The appended pieces are the status document |
| JsonOutput.PrintRow | src/database/db_config.c:474-482 | The inner loop appends one object with a member for each column |
| JsonOutput.PrintResult | src/database/db_config.c:465-488 | The outer loop appends the rows with commas between them |
| JsonOutput.PrintQuery | src/indexers/music/music_query.c:303-313 | The appended pieces are the query document, with the rows only when there is a result |
| JsonOutput.OutputQuery | src/indexers/music/music_query.c:286-315 | The answer lists the query's own errors, one more when there is no result, and then the database's, and shows that list and the rows; it fails exactly when the query is not known or the errors do not fit |
| JsonOutput.StatusParses | src/output.c:38-49 | The status text parses exactly when no header or message holds a control character, and then as its list of errors |
| JsonOutput.StatusReadsBack | src/error_messages.c:100-118 | It is derivable under the same condition, and reading it recovers the same errors in order |
| JsonOutput.QueryParses | src/indexers/music/music_query.c:303-313 | The query text parses exactly when no error and no cell holds a control character, and then as its errors and rows |
| JsonOutput.QueryReadsBack | src/database/db_config.c:465-488 | It is derivable under the same condition, and reading it recovers the same errors and rows in order, NULL as the text (null) |
| DirList.ListingAliveExactlyWhenOpen | src/indexers/music/tag_reader.c:67-100 | The scan keeps the end of the list if and only if every folder it enters opens, and then lists exactly the regular files not below a dot-directory, depth first in reading order |
| DirList.CrashesExactlyOnFileAfterClosed | src/indexers/music/tag_reader.c:67-99 | A file is written through NULL if and only if a regular file is reached behind an entered folder that does not open; otherwise every regular file reached is listed |
| DirList.ClosedFolderFirstCrashes | src/indexers/music/tag_reader.c:67-99 | A locked folder before a file crashes the scan, the same folder behind it does not |
| DirList.ListsExactlyReached | src/indexers/music/tag_reader.c:74-97 | A scan that does not crash lists exactly the regular files reached through folders that open and whose names do not begin with a dot, each once and in reading order, with its time and, as its path, the names on the way to it joined by "/" behind the root |
| DirList.ListedIffReached | src/indexers/music/tag_reader.c:79-95 | A file is listed if and only if it is at some such place |
| DirList.ReadDir | src/indexers/music/tag_reader.c:58-100 | The recursion builds an acyclic heap list of exactly those files from the caller's node on, returns its empty last node, and adds its length to the count |
| DirList.ReadNext | src/indexers/music/tag_reader.c:74-97 | One entry more extends the list by that entry's files and leaves the rest as it was |
| DirList.Fill | src/indexers/music/tag_reader.c:88-95 | The empty node takes the file and a new empty node is linked behind it |
| DirList.SyncDir | src/indexers/music/dir_sync/dir_sync.c:216-275 | The walk ends, publishes each file's percentage in order, and stops early exactly at the first file read without a connection |
| DirList.ProgressStep | src/indexers/music/dir_sync/dir_sync.c:271 | For two files or more, file k of n is at 100 k / (n - 1) percent: equal steps, within 0 and 100, and 100 for the last |
| DirList.ScanAndSync | src/indexers/music/dir_sync/dir_sync.c:203-275 | Scan and walk together: a crash exactly when a file is reached behind an unopened folder, otherwise the files reached, each once and in reading order, and for two files or more progress in equal steps to exactly 100 at the end, not a number for one |
| ErrorLog.ErrorMessages.Add | src/error_messages.c:130-146 | For one process: the entry is appended, or -1 is returned and nothing changes exactly when 1024 are there |
| ErrorLog.ErrorMessages.Duplicate | src/error_messages.c:83-96 | The other list's entries are appended in order, or the table is full and a write behind its end is reported, exactly when they do not fit |
| ErrorLog.SlotsAreTakenOnce | src/error_messages.c:138 | In every interleaving no two adders hold one slot, none holds a finished slot, the slots taken are those below num_errors, and with n adders num_errors is at most 1023 + n |
| ErrorLog.FinishedEntriesStay | src/error_messages.c:138-145 | A finished entry is the message that claimed the slot, and no later step of any run changes it |
| ErrorLog.QuietListIsWhole | src/error_messages.c:130-146 | Once no append is under way the list holds exactly the accepted messages in the order they took their slots |
| ErrorLog.UndisturbedAppend | src/error_messages.c:130-146 | An append that runs without others in between does what it does for one process |
| ErrorLog.BoundIsReached | src/error_messages.c:133-138 | For every n >= 1 some run of n adders brings num_errors to 1023 + n |
| ErrorLog.TableSufficesExactlyForOneAdder | src/error_messages.c:133-138 | In every run all slots taken lie in the table if and only if there is at most one adder |
| Strings.SplitExactlyUndoesJoin | src/indexers/music/music_query.c:215 | Splitting gives back the joined pieces if and only if there is a piece and none holds the separator |
| Uri.GetParameters | src/input.c:62-106 | The pointer loop ends, stays in bounds, and finds the parameters of the text behind the first "?", or nothing without one |
| Uri.CutAt | src/input.c:93-99 | Name and value of a segment are what stands before and after its first "=" |
| Uri.CutParts | src/input.c:93-99 | The first "=" parts name and value; a segment without one is a name with an empty value |
| Uri.ParametersOf | src/input.c:80-104 | What stands before the first "&" or ";" is one parameter, or none when it is empty, and then come the parameters of what stands behind it |
| Uri.SegmentsAreTheSplit | src/input.c:80-91 | The segments are the only way to write the query as pieces without "&" and ";", with one of the two between each and the next |
| Uri.ParametersReadBack | src/input.c:80-104 | Printed parameters read back if and only if no name holds "=" and nothing a separator |
| Uri.PartsReadBack | src/input.c:6-60 | Indexer and command read back if and only if the indexer is not empty, holds no "/", and neither holds "?" |
| Uri.NegativeExactlyWhenQuestionFirst | src/input.c:36-57 | With a second slash the command's length is negative if and only if a "?" comes before it; otherwise the command ends at the first "?" |
| Uri.WithoutSecondSlash | src/input.c:14-44 | The command is missing exactly when there is no second slash, and everything behind the first is then the indexer |
| Uri.QueryFound | src/input.c:71-77 | The parameters of a well-formed URI are those of its query part |
| Uri.Input.constructor | src/input.c:108-126 | Each field takes its part, or stays NULL, for every URI; reading fails for a negative length and behind the end of an empty URI |
| Uri.ReadPrinted | src/input.c:108-126 | A printed well-formed URI gives the handlers its indexer, its command and its list of parameters |
| WhereConditions.QueryParameters.AddWhere | src/database/db_query_parameters.c:67-135 | A word is refused and nothing changes, or one condition is appended and the word itself is rewritten only for its wild cards; a text is accepted if and only if its character codes lie in 32..126, a number if and only if it has only digits and commas, a date always |
| WhereConditions.ReplaceAsterisks | src/database/db_query_parameters.c:88-93 | The replacement loop ends and turns every asterisk, and nothing else, into a percent sign |
| WhereConditions.LiteralReadsBack | src/database/db_query_parameters.c:98-99 | The quoted word denotes the word if and only if it holds no quote, and a backslash only before "%" or "_" |
| WhereConditions.WildcardKeepsMeaning | src/database/db_query_parameters.c:73-99 | A word is accepted if and only if its character codes lie in 32..126, and its condition selects what the "*" pattern means if and only if, with a "*", it holds no quote, backslash, "%" or "_", and without one, no quote and no backslash but before "%" or "_" |
| WhereConditions.LikeKeepsMeaning | src/database/db_query_parameters.c:87-99 | The LIKE condition selects what the pattern means if and only if it holds none of the four special characters |
| WhereConditions.DateNeedsItsQuotes | src/database/db_query_parameters.c:101-103 | A date word goes into the condition as it is: as a text literal it never denotes itself, it denotes something only if it begins with a quote, and a value the client has quoted is selected if and only if it reads back |
| WhereConditions.IdListKeepsMeaning | data/www/javascript/music_query.js:57-68 | Every non-empty list of ids the client prints is accepted and names exactly those ids, by "=" for one and IN for more |
| WhereConditions.AcceptedIdsWellFormed | src/database/db_query_parameters.c:105-126 | A word is accepted if and only if it has only digits and commas, and its condition is well formed if and only if no piece between commas is empty |
| SortOrder.PrintSort | data/www/javascript/music_query.js:78-88 | The client's loop prints the signed names with a comma between each and the next |
| SortOrder.ConvertToken | src/indexers/music/music_query.c:216-243 | A token becomes a term with its direction behind the clause so far, or an unknown name |
| SortOrder.CompileSort | src/indexers/music/music_query.c:204-245 | The tokenising loop ends and yields the clause of the known names and the list of unknown ones, from the first 255 characters |
| SortOrder.ReportedExactlyWhenUnknown | src/indexers/music/music_query.c:239-241 | A name is reported if and only if it is not known and a token is that name, with or without a sign before it |
| SortOrder.ClauseSaysTerms | src/indexers/music/music_query.c:230-238 | The clause reads, as SQL, as its known names in order with their directions |
| SortOrder.ClientSortReachesClause | src/indexers/music/music_query.c:204-245 | What the client prints within 255 characters compiles to the columns of the known names, in the same order and directions, and reports exactly the others; there is no clause exactly when none is known |
| MusicQuery.Query.SetUrl | data/www/javascript/music_query.js:100-105 | The request carries the page size and, when not zero, the offset of the page |
| MusicQuery.Query.Process | data/www/javascript/music_query.js:138-234 | The callback's changes are the step function's: rows are appended, the next page is asked for, a failed parse asks again, a short page stops |
| MusicQuery.PageAt | data/www/javascript/music_query.js:100-105 | The page the server reads off the request is the one at count * page size |
| MusicQuery.GathersTable | data/www/javascript/music_query.js:138-234 | At every moment the results are the first min(N, count * p) rows; the query stops with answer floor(N / p) + 1, holding the whole table in order, or with the first answer without rows, keeping what it has, exactly then |
| MusicQuery.StopsAtOmission | data/www/javascript/music_query.js:205-222 | An answer without rows stops the query with the results it has, and nothing that comes later changes them |
| MusicQuery.RetriesAreHarmless | data/www/javascript/music_query.js:141-150 | Runs with the same number of answers, with or without one that has no rows, end alike, whatever failed or waited in between |

## Left out

- The mutex is a flag for "left held"; critical sections are atomic steps. Lock errors, shared memory set-up, fork and reattachment, file and thread creation failures are not modelled.
- The encoder thread's choice of decoder and encoder, its writes to the progress and status of the job it holds, and its database insert are not part of a step; the step's three ends all go to the same release.
- Request handlers and encoder threads are actions of a state machine on values rather than objects, because they run concurrently; the queue object they share is a class.
- The lookup in the database that comes before the queue lookup, and `new_source_id`, are left out.
- String comparison by apr_strnatcmp is an arbitrary equivalence; its natural ordering and case rules are left out.
- A decoder library is a finite list of steps, each delivering at most one frame, with one channel count throughout; after a stop it stays stopped. Its internals, seeking and streams that change their channel count are left out.
- Sample scaling and progress are exact reals; floating-point rounding is left out.
- Mp3File.ProcessMp3File: starts behind the library's read, whose status, byte count and samples are parameters.
- Mp3File.EncodeAll: a finite list of calls of the library, each leaving whole samples in the buffer; the encoder's page loop behind its input is left out.
- The shuffle's random numbers are parameters. Decoding ahead and the page's elements are left out.
- Playlist.Playlist.UpdateTableIndexs: the records are a list without holes, as a parsed JSON array is.
- JsonGrammar.ParseExactlyDerives: covers objects, arrays, strings and integers as the printers emit them; the literals true, false and null, fractions, exponents and `\u` escapes are not in the fragment.
- Header and message lengths are taken to be below 1024, so the bounded copies do not cut them.
- ErrorLog.ErrorMessages.Duplicate: what a write behind the end of the table does to other memory is left out.
- JsonOutput.QueryParses: the query's id and the column names need no escaping, as in the configuration; the printer puts any name into the text as it is.
- JsonOutput.QueryReadsBack: the same.
- Playlist.Playlist.ShuffleSongs: an empty playlist, which raises a type error at its first song, is left out.
- DirList.SyncDir: reading tags and writing songs to the database are left out but for the lost connection; so are file type detection and the transaction around the walk.
- APR's merging of parameters with equal names comes after the list modelled here.
- A date condition that is not a quoted literal is an SQL expression, which is left out; the generated SQL statement is commented out in the source and left out.
- SQL collation and the comparison rules of the database are left out. Literals and LIKE follow MySQL's default rules for quotes and backslashes.
- The lookup of a friendly column name is an arbitrary function from names to columns.
- MusicQuery.RetriesAreHarmless: a failed parse asks again at once; an answer that never parses keeps the client asking, and only the results are then known not to change.
- MusicQuery.Query.Process: one object name per query, always an array; an answer that is not an object, and multi-object queries, are left out.
- URL encoding of the client's words is left out.
- Upload, database managers, index manager, configuration reading, artwork and tag readers are left out: they are input and output, unfinished, or would add only easy members.
