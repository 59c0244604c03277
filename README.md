# Podcast editor core, modelled in Dafny

This project models the deterministic core of an Android podcast editor written in Kotlin, together with the Python helper script that ships in the same repository. The repository holds two apps, and both declare the package `com.podcastcreateur.app`:

- **The recorder and editor**, in `com/podcastcreateur/app`:
  - `WavUtils` builds the 44-byte RIFF/WAVE header, saves and reads 16-bit PCM, and concatenates recordings.
  - `EditorActivity` cuts and normalises a mono copy of the samples and plays it in chunks.
  - `WaveformView` keeps a growable buffer of peaks, with a selection and a playhead driven by touch gestures.
  - `FFmpegHelper` builds FFmpeg command strings and applies the loudnorm-then-volume fallback.
  - A second, streaming `EditorActivity` lives in `AudioHelper.kt`. It hands cuts and normalisation to file-level helpers as millisecond ranges.
- **The chronicle app**, in `com/sonfusion/app`:
  - A project is a directory of chronicles. Chronicle *i* is a script `ddd_<name>.txt` plus an optional audio file `ddd_<name>.<ext>`.
  - `ProjectActivity` lists, creates, imports, reorders, renames and deletes chronicles.
  - `EditorActivity` cuts, normalises and plays a whole sample array.
  - `WaveformView` handles a press, a drag and a release.
  - `AudioHelper` covers metadata, preview downsampling, the streaming merge into AAC and the encoding of a PCM buffer.
- **`create_synthese_file_for_IA.py`** collects source files by extension and writes them as records into one text file.

Each source file is one Dafny module. The two trees reuse class names, so the module names say which tree a file belongs to (`Podcast…` or `Son…`). Shared rules have their own modules:

- `Numeric`: Kotlin's 16-, 32- and 64-bit wrap-around and truncating division.
- `Pcm16`: little-endian sample codec, splice and peak.
- `Text`: decimal and zero-padded formatting, trimming, last-dot splits and character filtering.
- `Sorting`: the two string orders of the sources and sorting a set. Python's `sorted` compares code points. Kotlin's `sorted()` compares UTF-16 code units, so every character from U+10000 up sorts before U+E000 to U+FFFF.
- `Chunking`: the `min(cap, end - offset)` loops.
- `ChronicleNames`: the `ddd_` file-name grammar with `java.util.regex` semantics.
- `EditorRanges`: the playback and normalisation ranges.
- `Options`: optional values.

Where the source mutates state (the two views, the two Kotlin editors, `ProjectActivity`), the model is a class whose methods change its fields. Loops are methods whose `while`/`for` loops are proved against specification functions. The rest is functions and lemmas.

Several things are parameters rather than models:

- Files are byte sequences or sets of names, and a missing file is `None`.
- An FFmpeg run is `succeeds`.
- Unicode letter and space tests, case-insensitive comparison and accent stripping are given functions.
- The floating-point gain of normalisation is `scale`/`gain`.
- The values `AudioTrack.write` returns are a given sequence.
- A stop request from another thread is a budget of writes (`stopAfter`).
- `POINTS_PER_SECOND` is `pointsPerSecond`.

## Model

| member | source | states |
|---|---|---|
| WavUtils.WavHeaderIds | app/src/main/java/com/podcastcreateur/app/WavUtils.kt:126-147 | the header `writeWavHeader` writes holds "RIFF" at 0, "WAVE" at 8, "fmt " at 12 and "data" at 36 |
| WavUtils.WavHeaderSizes | app/src/main/java/com/podcastcreateur/app/WavUtils.kt:136-146 | bytes 4..7 read back as the RIFF size and bytes 40..43 as the data size, each taken modulo 2^32 (the `toInt()` truncation) |
| WavUtils.WavHeaderFormat | app/src/main/java/com/podcastcreateur/app/WavUtils.kt:128-144 | the fmt chunk reads back as size 16, format 1, the 16-bit channel count, the sample rate, the byte rate `sampleRate*16*channels/8` in Int arithmetic, the block alignment and 16 bits per sample |
| WavUtils.ByteRateNatural | app/src/main/java/com/podcastcreateur/app/WavUtils.kt:89-111 | without overflow the byte rate is 2·sampleRate·channels and the block alignment 2·channels |
| WavUtils.UpdatedHeaderIds | app/src/main/java/com/podcastcreateur/app/WavUtils.kt:92-113 | the 44-byte header of `updateHeader` holds "RIFF", "WAVE", "fmt " and "data" at 0, 8, 12 and 36 |
| WavUtils.UpdatedHeaderSizes | app/src/main/java/com/podcastcreateur/app/WavUtils.kt:88-117 | bytes 4..7 hold `audioLen+36` and bytes 40..43 hold `audioLen`, little-endian, as the low 32 bits |
| WavUtils.UpdatedHeaderFormat | app/src/main/java/com/podcastcreateur/app/WavUtils.kt:89-112 | chunk size 16, format 1, the low byte of the channel count with a zero byte 23, the sample rate, the byte rate, the low byte of the block alignment with a zero byte 33, 16 bits |
| WavUtils.UpdateHeader | app/src/main/java/com/podcastcreateur/app/WavUtils.kt:84-124 | the file after the call has at least 44 bytes, starts with the updated header, and keeps every byte after the first 44 |
| WavUtils.UpdateAgreesWithWrite | app/src/main/java/com/podcastcreateur/app/WavUtils.kt:126-147 | for 0 <= channels < 128, `updateHeader` with `audioLen` writes exactly the 44 bytes of `writeWavHeader(out, audioLen, audioLen+36, …)` |
| WavUtils.UpdateDiffersFromWriteAt128 | app/src/main/java/com/podcastcreateur/app/WavUtils.kt:111-143 | with 128 channels the two writers disagree at byte 33 (0 against 1), so the "same logic" of the comment holds only below 128 channels |
| WavUtils.SavePcmToWav | app/src/main/java/com/podcastcreateur/app/WavUtils.kt:61-75 | the output is the recorder-format header for 2·n data bytes followed by every sample little-endian, 44 + 2·n bytes in all |
| WavUtils.ReadWavData | app/src/main/java/com/podcastcreateur/app/WavUtils.kt:159-171 | empty for a missing file or one under 44 bytes; otherwise (size-44)/2 samples, sample i read from the byte pair at 44+2i, an odd trailing byte ignored |
| WavUtils.SaveThenRead | app/src/main/java/com/podcastcreateur/app/WavUtils.kt:159-171 | reading back what `savePcmToWav(p)` wrote gives `p` |
| WavUtils.MergeFiles | app/src/main/java/com/podcastcreateur/app/WavUtils.kt:17-55 | false (no output) exactly for an empty list; otherwise the inputs that exist and hold a header contribute their bytes after 44, in order, and the rewritten header records the total |
| WavUtils.PayloadOfSaved | app/src/main/java/com/podcastcreateur/app/WavUtils.kt:29-42 | the data merged from recordings saved by `savePcmToWav` is the encoding of their samples one after the other |
| WavUtils.MergeSavedRecordings | app/src/main/java/com/podcastcreateur/app/WavUtils.kt:17-55 | merging saved recordings and reading the result back gives their samples concatenated |
| Pcm16.ShortRoundTrip | app/src/main/java/com/podcastcreateur/app/WavUtils.kt:152-154 | a 16-bit sample written as two little-endian bytes reads back as itself |
| Pcm16.EncodeShorts | app/src/main/java/com/podcastcreateur/app/WavUtils.kt:69-73 | `putShort` of every sample: 2·n bytes, sample i at 2i (low byte) and 2i+1 (high byte) |
| Pcm16.DecodeShorts | app/src/main/java/com/podcastcreateur/app/WavUtils.kt:165-169 | one sample per whole byte pair, sample i from bytes 2i and 2i+1 |
| Pcm16.DecodeEncode | app/src/main/java/com/podcastcreateur/app/WavUtils.kt:165-169 | decoding undoes encoding |
| Pcm16.EncodeAppend | app/src/main/java/com/podcastcreateur/app/WavUtils.kt:39-42 | encoding a concatenation encodes each part in turn |
| Numeric.Int32LEValue | app/src/main/java/com/podcastcreateur/app/WavUtils.kt:149-151 | the four bytes of `intToByteArray` read back, unsigned little-endian, as the value modulo 2^32 |
| Numeric.Int32LEWrap | app/src/main/java/com/podcastcreateur/app/WavUtils.kt:94-97 | the four bytes of `(x and 0xff)…(x shr 24 and 0xff)` of a Long equal `intToByteArray(x.toInt())` |
| SourceAggregator.Join | create_synthese_file_for_IA.py:53-76 | `os.path.join`: an absolute second part replaces the first; otherwise the result ends with the second part |
| SourceAggregator.Extensions | create_synthese_file_for_IA.py:40-43 | a single extension string becomes a one-element list; a list is used as given |
| SourceAggregator.RewritePatternMeaning | create_synthese_file_for_IA.py:45-48 | a pattern ending in "/*" keeps everything before it and ends in "/**/*" (three characters longer); any other pattern is unchanged |
| SourceAggregator.Matched | create_synthese_file_for_IA.py:51-56 | the accumulated set holds exactly the regular files some extension's glob matched |
| SourceAggregator.RecursiveMatches | create_synthese_file_for_IA.py:50-57 | recursive mode yields the strictly sorted, duplicate-free list of exactly the regular files matched by some extension |
| SourceAggregator.FlatSelectionMembers | create_synthese_file_for_IA.py:65-70 | flat mode selects a path exactly when it is the joined path of a listed name ending with one of the extensions that is a regular file |
| SourceAggregator.SelectedFrom | create_synthese_file_for_IA.py:66-70 | every selected path comes from a listed name that ends with an extension and is a regular file |
| SourceAggregator.KeptIsSelected | create_synthese_file_for_IA.py:66-70 | every listed name that ends with an extension and is a regular file has its path selected |
| SourceAggregator.FlatSelectionKeepsOrder | create_synthese_file_for_IA.py:66-70 | when every listed name qualifies, the selection is the listing joined to the folder, in listing order |
| SourceAggregator.FlatMatches | create_synthese_file_for_IA.py:65-70 | the scan of the listing returns the flat selection, in listing order |
| SourceAggregator.RecordShape | create_synthese_file_for_IA.py:80-90 | a record starts with divider, `Fichier : <path>`, divider and a blank line, carries the file's text or the read-error message whole, and ends with "\n\n" |
| SourceAggregator.RecordsAppend | create_synthese_file_for_IA.py:78-90 | the output for a list of files is the output of its parts one after the other, so each file gets its record whatever happened to the others |
| SourceAggregator.WriteRecords | create_synthese_file_for_IA.py:77-90 | the write loop produces one record per file, in match order |
| SourceAggregator.CompileFiles | create_synthese_file_for_IA.py:38-92 | a missing folder in flat mode returns without output exactly when the folder has no wildcard and is not a directory; a written output goes to `tmp_IA/<output>` |
| SourceAggregator.CompilationWrites | create_synthese_file_for_IA.py:72-77 | output is written exactly when the selection is non-empty, and holds the records of the selection; an empty selection returns before the output is opened |
| SourceAggregator.RunTasks | create_synthese_file_for_IA.py:95-104 | the main loop runs every task of the table, in table order, each from the root folder |
| Sorting.SortSet | create_synthese_file_for_IA.py:57 | `sorted(set)`: a strictly increasing list of exactly the set's members |
| Sorting.Utf16Order | app/src/main/java/com/sonfusion/app/ProjectActivity.kt:110 | Kotlin's string order: one string is below another exactly when its UTF-16 code units are lexicographically below the other's |
| Sorting.OrdersDiffer | app/src/main/java/com/sonfusion/app/ProjectActivity.kt:110 | the two orders disagree: "000_\U{1F600}" sorts before "000_\U{FF01}" by UTF-16 code units and after it by code points |
| Sorting.SortedUnique | create_synthese_file_for_IA.py:57 | two strictly sorted lists with the same members are equal, so the sorted order is unique |
| SonEditorActivity.FormatTimeReadsBack | app/src/main/java/com/sonfusion/app/EditorActivity.kt:126-131 | below 100 minutes `formatTime(samples)` is five characters `mm:ss` whose fields read back as the whole seconds samples/44100 |
| SonEditorActivity.CutSelection | app/src/main/java/com/sonfusion/app/EditorActivity.kt:199-217 | ignored exactly when start < 0 or end <= start; a selection past the samples makes the copy fail; otherwise the result has size−(end−start) samples, pcm[0..start) then pcm[end..) |
| SonEditorActivity.CutIsUndoable | app/src/main/java/com/sonfusion/app/EditorActivity.kt:207-211 | putting the cut samples back at `start` restores the original |
| SonEditorActivity.Peak | app/src/main/java/com/sonfusion/app/EditorActivity.kt:224-227 | the scan returns the largest magnitude over [start, end), 0 for an empty range |
| SonEditorActivity.NormalizeSelection | app/src/main/java/com/sonfusion/app/EditorActivity.kt:219-237 | samples are rescaled exactly when the range holds a non-zero sample; then every sample of the range gets its scaled value and no sample outside the range changes |
| SonEditorActivity.PlayAudio | app/src/main/java/com/sonfusion/app/EditorActivity.kt:133-176 | nothing with no samples; otherwise the writes are the first chunks of at most 2048 samples over the playback range, the playhead moves at each chunk end that is a multiple of 8820, and it returns to the start exactly when playback reached the end |
| SonEditorActivity.FullPlaybackCoversRange | app/src/main/java/com/sonfusion/app/EditorActivity.kt:149-155 | played to the end, the chunks cover the range exactly once, in order, all of 2048 samples but the last |
| SonEditorActivity.ReRecord | app/src/main/java/com/sonfusion/app/EditorActivity.kt:65-84 | the recorder is started exactly when the file name parses as `ddd_<name>.<ext>`, with a script name made of the prefix, the name and ".txt" |
| SonEditorActivity.ReRecordChronicle | app/src/main/java/com/sonfusion/app/EditorActivity.kt:65-79 | the audio file `%03d_<name>.<ext>` of chronicle i re-records chronicle i with its script `%03d_<name>.txt` |
| EditorRanges.PlaybackRange | app/src/main/java/com/sonfusion/app/EditorActivity.kt:145-150 | playback starts at the selection start, or else the playhead, clamped to [0, size], and ends at the selection end when it lies after the start, else at the size |
| EditorRanges.NormalizeRange | app/src/main/java/com/sonfusion/app/EditorActivity.kt:221-222 | the range starts at the selection start when it is >= 0, else 0, and ends at the selection end when it lies after the start; a selection end at or before the start gives the size |
| EditorRanges.NormalizeRangeCases | app/src/main/java/com/podcastcreateur/app/AudioHelper.kt:337-346 | a selection inside the samples is normalised as is, and no selection (-1, -1) normalises [0, size) |
| Pcm16.Splice | app/src/main/java/com/sonfusion/app/EditorActivity.kt:207-209 | the splice has size−(end−start) samples: those before `start`, then those from `end` on |
| Pcm16.SpliceRestore | app/src/main/java/com/sonfusion/app/EditorActivity.kt:207-209 | the removed samples put back between the two parts restore the original |
| Pcm16.MaxAbsIsPeak | app/src/main/java/com/sonfusion/app/EditorActivity.kt:224-229 | the peak bounds every magnitude of the range, is reached by one of them, and is 0 exactly when every sample is 0 |
| Text.ZeroPadFacts | app/src/main/java/com/sonfusion/app/ProjectActivity.kt:166 | `%03d` of a number reads back as the number, and is exactly three characters below 1000 |
| Text.ClockReadsBack | app/src/main/java/com/sonfusion/app/EditorActivity.kt:127-130 | `%02d:%02d` of sec/60 and sec%60 is five characters below 100 minutes, with fewer than 60 seconds, and reads back as `sec` |
| Text.MillisClockReadsBack | app/src/main/java/com/podcastcreateur/app/AudioHelper.kt:140-145 | `formatTime(ms)` is `mm:ss` below 100 minutes and reads back as ms/1000 |
| Text.DecimalRoundTrip | app/src/main/java/com/podcastcreateur/app/FFmpegHelper.kt:40 | the decimal text of a number reads back as the number |
| Text.SplitAtLast | app/src/main/java/com/sonfusion/app/ProjectActivity.kt:199-201 | splitting at the last dot loses nothing, and the part after it holds no dot |
| Text.Keep | app/src/main/java/com/sonfusion/app/ProjectActivity.kt:201 | deleting the characters outside a class keeps only characters of the class, and leaves a string made of them unchanged |
| Text.KeepAppend | app/src/main/java/com/sonfusion/app/ProjectActivity.kt:201 | deleting characters works piece by piece: the kept characters of `a + b` are those of `a` followed by those of `b`, so the kept ones stay in order |
| Text.KeepOne | app/src/main/java/com/sonfusion/app/ProjectActivity.kt:201 | a single character is kept exactly when it is in the class |
| Text.TrimStart | app/src/main/java/com/sonfusion/app/ProjectActivity.kt:157 | the result is a suffix that does not start with a space, and only spaces were removed |
| Text.TrimEnd | app/src/main/java/com/sonfusion/app/ProjectActivity.kt:157 | the result is a prefix that does not end with a space, and only spaces were removed |
| ChronicleNames.LineOf | app/src/main/java/com/sonfusion/app/ProjectActivity.kt:123 | what greedy `(.*)` matches: the longest prefix without a line terminator, stopping only at one |
| ChronicleNames.PrefixValue | app/src/main/java/com/sonfusion/app/ProjectActivity.kt:166-179 | below 1000 the `%03d_` prefix is four characters, three digits and `_`, and its digits read back as the position |
| ChronicleNames.PrefixTooLong | app/src/main/java/com/sonfusion/app/ProjectActivity.kt:179 | from position 1000 on, the prefix has four digits and a name made with it no longer matches `^\d{3}_` |
| ChronicleNames.PrefixOrder | app/src/main/java/com/sonfusion/app/ProjectActivity.kt:179 | names made from positions i < j < 1000 sort in the order of the positions, whatever follows the prefixes |
| ChronicleNames.DisplayName | app/src/main/java/com/podcastcreateur/app/AudioHelper.kt:47 | a name starting with `ddd_` loses exactly those four characters; any other name is shown as is |
| ChronicleNames.DisplayNameOfPrefixed | app/src/main/java/com/podcastcreateur/app/AudioHelper.kt:47 | the displayed name of the file of chronicle i is its name |
| ChronicleNames.SplitKey | app/src/main/java/com/sonfusion/app/ProjectActivity.kt:123-126 | a key matches exactly when it starts with `ddd_`; the prefix is those four characters and the name the rest of the first line |
| ChronicleNames.SplitKeyRoundTrip | app/src/main/java/com/sonfusion/app/ProjectActivity.kt:123-126 | a key made of the prefix of a position below 1000 and a one-line name splits back into that prefix and name |
| ChronicleNames.ParseRecordingName | app/src/main/java/com/podcastcreateur/app/AudioHelper.kt:74-77 | a parse succeeds only on a `ddd_` name; the prefix is those four characters and the extension holds no dot |
| ChronicleNames.ParsedNameParts | app/src/main/java/com/podcastcreateur/app/AudioHelper.kt:74-77 | a parsed name reassembles as prefix+name+"."+ext at the start of the file name, followed only by the end of input or one final line terminator |
| ChronicleNames.ParseRoundTrip | app/src/main/java/com/sonfusion/app/EditorActivity.kt:65-69 | the file name `%03d_<name>.<ext>` of a position below 1000 parses back into that prefix, name and extension |
| ChronicleNames.ParsePrefixed | app/src/main/java/com/podcastcreateur/app/AudioHelper.kt:74-77 | the same for any four-character `ddd_` prefix |
| ChronicleNames.LastDotBeforeExtension | app/src/main/java/com/sonfusion/app/ProjectActivity.kt:199-201 | before an extension without a dot, the last dot separates exactly the name and the extension |
| ChronicleNames.ScriptName | app/src/main/java/com/podcastcreateur/app/AudioHelper.kt:79 | the script path starts with the prefix and ends with ".txt" |
| Chunking.ChunksTile | app/src/main/java/com/podcastcreateur/app/AudioHelper.kt:217-220 | the loop `len = min(cap, end - offset); offset += len` visits [start, end) exactly once, in order: each write is 1 to cap elements long and starts where the previous one ended, and every write but the last is full |
| Chunking.GatherChunks | app/src/main/java/com/sonfusion/app/EditorActivity.kt:152-155 | the writes of the chunk loop, taken one after the other, are exactly the samples of the range |
| Chunking.MarkedEnds | app/src/main/java/com/podcastcreateur/app/AudioHelper.kt:222-225 | the offsets where the playhead is moved are chunk ends that are multiples of the step, at most one per chunk |
| SonProjectActivity.ScriptKeysOf | app/src/main/java/com/sonfusion/app/ProjectActivity.kt:105-108 | a key is mapped exactly when `<key>.txt` is in the directory |
| SonProjectActivity.AudioFor | app/src/main/java/com/sonfusion/app/ProjectActivity.kt:114-121 | no audio exactly when none of `.m4a`, `.wav`, `.mp3` exists for the key; otherwise the first existing one in that order of preference |
| SonProjectActivity.ChronicleFor | app/src/main/java/com/sonfusion/app/ProjectActivity.kt:113-127 | a key is listed exactly when it starts with `ddd_`; its chronicle carries that prefix, the rest of the key as name, the preferred audio and `<key>.txt` |
| SonProjectActivity.ChroniclesOf | app/src/main/java/com/sonfusion/app/ProjectActivity.kt:112-128 | at most one chronicle per key, each the chronicle of one of the keys |
| SonProjectActivity.ChroniclesOfComplete | app/src/main/java/com/sonfusion/app/ProjectActivity.kt:123-127 | every key with a prefix gets its chronicle |
| SonProjectActivity.ChroniclesOfSorted | app/src/main/java/com/sonfusion/app/ProjectActivity.kt:110-112 | keys taken in increasing order give chronicles in strictly increasing order of key |
| SonProjectActivity.RefreshedList | app/src/main/java/com/sonfusion/app/ProjectActivity.kt:101-131 | the refreshed list is strictly ordered by key in UTF-16 code-unit order, lists only scripts of the directory with the chronicle their key names, and lists every script whose key starts with `ddd_` |
| SonProjectActivity.ListedScript | app/src/main/java/com/sonfusion/app/ProjectActivity.kt:105-127 | a script `<ddd_><name>.txt` with a one-line name is listed with that prefix and name |
| SonProjectActivity.ProjectActivity.constructor | app/src/main/java/com/sonfusion/app/ProjectActivity.kt:37-46 | the activity starts with an empty list and no preview playing |
| SonProjectActivity.ProjectActivity.RefreshList | app/src/main/java/com/sonfusion/app/ProjectActivity.kt:101-131 | the list is cleared and becomes the chronicles of the script keys sorted by UTF-16 code units; an unreadable directory leaves it empty |
| SonProjectActivity.ProjectActivity.ReadChronicles | app/src/main/java/com/sonfusion/app/ProjectActivity.kt:112-128 | the loop over the sorted keys appends the chronicle of every key with a prefix, in key order |
| SonProjectActivity.ProjectActivity.SortedKeys | app/src/main/java/com/sonfusion/app/ProjectActivity.kt:110 | the script keys, strictly increasing in UTF-16 code-unit order, exactly once each |
| SonProjectActivity.CleanName | app/src/main/java/com/sonfusion/app/ProjectActivity.kt:156-158 | the cleaned name holds only characters of `[\p{L}0-9 _-]`, and a trimmed name made only of them comes back unchanged |
| SonProjectActivity.CleanNameKeepsAllowed | app/src/main/java/com/sonfusion/app/ProjectActivity.kt:156-158 | in the trimmed name `a + [c] + b`, the character `c` survives cleaning, in its place between the cleaned `a` and the cleaned `b`, exactly when it is a letter, a digit, a space, `_` or `-` |
| SonProjectActivity.NewChronicleFor | app/src/main/java/com/sonfusion/app/ProjectActivity.kt:155-169 | ignored exactly when the trimmed title is empty; refused exactly when a listed name equals the cleaned name ignoring case; otherwise the script is `%03d_` of the list size, the cleaned name and ".txt" |
| SonProjectActivity.NewChronicleListed | app/src/main/java/com/sonfusion/app/ProjectActivity.kt:163-166 | a created script is listed after the refresh as a chronicle at the next position with the cleaned name |
| SonProjectActivity.ProjectActivity.AddChronicle | app/src/main/java/com/sonfusion/app/ProjectActivity.kt:155-169 | a created script is added to the directory and the list read again; an empty or duplicate title changes neither |
| SonProjectActivity.Swapped | app/src/main/java/com/sonfusion/app/ProjectActivity.kt:88 | `Collections.swap` exchanges the two positions and leaves every other position unchanged |
| SonProjectActivity.SwapPermutes | app/src/main/java/com/sonfusion/app/ProjectActivity.kt:88 | a swap keeps the same elements, as many times each |
| SonProjectActivity.SwapUndoes | app/src/main/java/com/sonfusion/app/ProjectActivity.kt:85-90 | swapping the same positions again restores the list |
| SonProjectActivity.ProjectActivity.OnMove | app/src/main/java/com/sonfusion/app/ProjectActivity.kt:85-90 | the list becomes the old list with the two positions swapped |
| SonProjectActivity.ItemRenamesTargets | app/src/main/java/com/sonfusion/app/ProjectActivity.kt:174-186 | an item already carrying the prefix of its position is not renamed; otherwise at most two files move, only ones that exist, each to a name starting with the new key: the script first to `<newKey>.txt`, the audio last to `<newKey>.<its own extension>` |
| SonProjectActivity.RenamedToPosition | app/src/main/java/com/sonfusion/app/ProjectActivity.kt:175-180 | an item below position 1000 whose prefix is wrong has its script renamed to `%03d_<name>.txt` of its position, which splits back into that prefix and name |
| SonProjectActivity.PlanHoldsItem | app/src/main/java/com/sonfusion/app/ProjectActivity.kt:174-186 | every rename planned for an item is in the whole plan |
| SonProjectActivity.NewKeysFollowPositions | app/src/main/java/com/sonfusion/app/ProjectActivity.kt:175-176 | in a list of at most 1000 items, the new keys sort in the order of the positions |
| SonProjectActivity.ProjectActivity.PlanRenames | app/src/main/java/com/sonfusion/app/ProjectActivity.kt:173-186 | the first loop accumulates the renames of every position, in list order |
| SonProjectActivity.ProjectActivity.RenameAll | app/src/main/java/com/sonfusion/app/ProjectActivity.kt:187 | the renames are applied one after the other, in plan order |
| SonProjectActivity.ItemMovesScript | app/src/main/java/com/sonfusion/app/ProjectActivity.kt:174-187 | the renames of one item move its script to the script of its position and no other script, the audio never taking a script's name |
| SonProjectActivity.PlanPrefixScripts | app/src/main/java/com/sonfusion/app/ProjectActivity.kt:173-187 | after the renames of the first positions, their old scripts are replaced by the scripts of their positions and every other script stays |
| SonProjectActivity.RenumberedKeys | app/src/main/java/com/sonfusion/app/ProjectActivity.kt:173-187 | after renumbering, a key is a prefixed script key exactly when it is the prefix of some position followed by that item's name |
| SonProjectActivity.RelistedKeys | app/src/main/java/com/sonfusion/app/ProjectActivity.kt:172-189 | the keys read back after renumbering are the keys of the positions, in position order |
| SonProjectActivity.SavedOrderRelisted | app/src/main/java/com/sonfusion/app/ProjectActivity.kt:172-189 | when the list holds the listed chronicles, at most 1000, under one-line keys and different names, the next refresh lists as many chronicles, the one at position i with prefix `%03d_` of i and the name of the list's item i |
| SonProjectActivity.DuplicateNamesLoseScript | app/src/main/java/com/sonfusion/app/ProjectActivity.kt:359 | two chronicles named `A`, reordered, leave one script after renumbering |
| SonProjectActivity.CheckedRenameKeepsNamesDistinct | app/src/main/java/com/sonfusion/app/ProjectActivity.kt:160 | refusing a new name another chronicle has, as the creation dialog does, keeps the names of the list different |
| SonProjectActivity.ProjectActivity.SaveOrderOnDisk | app/src/main/java/com/sonfusion/app/ProjectActivity.kt:172-189 | the directory becomes the old one with the planned renames applied, and the list is read again from it |
| SonProjectActivity.ImportFor | app/src/main/java/com/sonfusion/app/ProjectActivity.kt:194-206 | the name is the display name (`import` by default) before its last dot, stripped to `[a-zA-Z0-9 ._-]`, with `_<timestamp>` appended exactly when a listed name equals it ignoring case; audio and script take `%03d_` of the list size, the audio keeping the extension after the last dot (`mp3` by default) |
| SonProjectActivity.ImportListed | app/src/main/java/com/sonfusion/app/ProjectActivity.kt:204-210 | the imported script is listed after the refresh at the next position under the imported name, and an imported `.m4a` is found as its audio |
| SonProjectActivity.ImportNameSingleLine | app/src/main/java/com/sonfusion/app/ProjectActivity.kt:200-202 | the imported name never holds a line terminator |
| SonProjectActivity.ProjectActivity.ImportFile | app/src/main/java/com/sonfusion/app/ProjectActivity.kt:191-213 | the audio is added when the content could be opened, the script always, and the list is read again |
| SonProjectActivity.RenameFiles | app/src/main/java/com/sonfusion/app/ProjectActivity.kt:360-363 | the script is renamed first to `<prefix><newName>.txt`, and a second rename moves the audio exactly when there is one |
| SonProjectActivity.RenameListed | app/src/main/java/com/sonfusion/app/ProjectActivity.kt:358-364 | a listed chronicle renamed to a one-line name is listed again under the same prefix with the new name |
| SonProjectActivity.ProjectActivity.OnRename | app/src/main/java/com/sonfusion/app/ProjectActivity.kt:357-365 | an empty or unchanged cleaned name changes nothing; otherwise script and audio are renamed and the list read again, even when another chronicle already has the new name |
| SonProjectActivity.Deleted | app/src/main/java/com/sonfusion/app/ProjectActivity.kt:373-374 | the script and the audio are gone and every other file remains |
| SonProjectActivity.ProjectActivity.OnDelete | app/src/main/java/com/sonfusion/app/ProjectActivity.kt:370-377 | after the deletion the list is read again and the remaining chronicles are renumbered by the rename plan |
| SonProjectActivity.ProjectActivity.OnRecordOrPlay | app/src/main/java/com/sonfusion/app/ProjectActivity.kt:215-248 | with no existing audio the recorder is launched for the chronicle; a tap on the audio being previewed stops it; any other audio stops the old preview and starts its own when the player can be prepared |
| SonProjectActivity.ProjectActivity.StopPreview | app/src/main/java/com/sonfusion/app/ProjectActivity.kt:243-248 | no file is being previewed any more and the list is unchanged |
| SonProjectActivity.TapTwice | app/src/main/java/com/sonfusion/app/ProjectActivity.kt:215-253 | two taps on the same existing audio start and then stop its preview, so `isFilePlaying` is false again |
| SonProjectActivity.FilesToMergeMembers | app/src/main/java/com/sonfusion/app/ProjectActivity.kt:260 | the files merged are exactly the audio files of the list |
| SonProjectActivity.MergeTakesEveryAudio | app/src/main/java/com/sonfusion/app/ProjectActivity.kt:260 | with an audio for every chronicle, file i of the merge is the audio of chronicle i |
| SonProjectActivity.MergeRequest | app/src/main/java/com/sonfusion/app/ProjectActivity.kt:259-264 | nothing is exported exactly when no chronicle has audio; otherwise the audio files of the list, in list order |
| SonProjectActivity.SafeProjectName | app/src/main/java/com/sonfusion/app/ProjectActivity.kt:288 | every character outside `[a-zA-Z0-9.-]` becomes `_`, all others are kept, and the length is unchanged |
| SonProjectActivity.ExportName | app/src/main/java/com/sonfusion/app/ProjectActivity.kt:285-292 | the exported name starts with the safe project name, `_` and the time stamp, and ends with ".m4a" |
| FFmpegHelper.BuildMergeCommand | app/src/main/java/com/podcastcreateur/app/FFmpegHelper.kt:28-49 | the string builder's loops produce the merge command: one `-i "<path>" ` per input in order, the concat graph, the map and the AAC tail |
| FFmpegHelper.ReadInputsRoundTrip | app/src/main/java/com/podcastcreateur/app/FFmpegHelper.kt:30-33 | the input arguments read back as exactly the files, in order, for paths without a double quote |
| FFmpegHelper.MergeCommandInputs | app/src/main/java/com/podcastcreateur/app/FFmpegHelper.kt:28-49 | the merge command reads back as its inputs, in order, followed by the filter graph and the tail |
| FFmpegHelper.FilterGraphCounts | app/src/main/java/com/podcastcreateur/app/FFmpegHelper.kt:35-40 | the graph labels inputs 0 to n - 1 in order, and its `concat=n=` count reads back as n |
| FFmpegHelper.TwoInputGraph | app/src/main/java/com/podcastcreateur/app/FFmpegHelper.kt:25-40 | for two inputs the graph is `[0:a][1:a]concat=n=2:v=0:a=1[out]`, the example of the source |
| FFmpegHelper.MergeAudioFiles | app/src/main/java/com/podcastcreateur/app/FFmpegHelper.kt:16-67 | no inputs: failure reported, FFmpeg not run; otherwise the merge command is run and its success reported |
| FFmpegHelper.CutAudio | app/src/main/java/com/podcastcreateur/app/FFmpegHelper.kt:73-87 | one run, of the cut command for the input, the output, the start and the duration, whose success is reported |
| FFmpegHelper.CutCommandReadsBack | app/src/main/java/com/podcastcreateur/app/FFmpegHelper.kt:75 | the cut command starts `-ss <start> -t <duration> `, then reads back as exactly the one input file, followed by the AAC 128k re-encode options and the quoted output |
| FFmpegHelper.NormalizeAudio | app/src/main/java/com/podcastcreateur/app/FFmpegHelper.kt:92-109 | the loudnorm command runs first; the 3 dB fallback runs exactly when it fails; the result is success of either |
| FFmpegHelper.FallbackOnlyOnFailure | app/src/main/java/com/podcastcreateur/app/FFmpegHelper.kt:100-107 | the fallback is among the commands run exactly when loudnorm failed, and then its own outcome is the one reported |
| PodcastAudioHelperEditor.ReRecord | app/src/main/java/com/podcastcreateur/app/AudioHelper.kt:72-87 | a file name matching `^(\d{3}_)(.*)\.(.*)$` launches the recorder in the file's directory with that prefix, that name and the script `<prefix><name>.txt` next to it; any other name launches nothing |
| PodcastAudioHelperEditor.ReRecordChronicle | app/src/main/java/com/podcastcreateur/app/AudioHelper.kt:74-84 | re-recording the audio `%03d_<name>.<ext>` of chronicle i launches the recorder on that prefix and name |
| PodcastAudioHelperEditor.SampleToMsFloor | app/src/main/java/com/podcastcreateur/app/AudioHelper.kt:290-291 | `(x * 1000L) / sampleRate` is the whole number of milliseconds the first x samples last |
| PodcastAudioHelperEditor.SampleToMsMonotone | app/src/main/java/com/podcastcreateur/app/AudioHelper.kt:290-291 | a later sample is never at an earlier millisecond |
| PodcastAudioHelperEditor.CutSelectionAsWritten | app/src/main/java/com/podcastcreateur/app/AudioHelper.kt:264-301 | as written, a confirmed cut asks to keep one range starting at 0 |
| PodcastAudioHelperEditor.CutAsWrittenDropsTail | app/src/main/java/com/podcastcreateur/app/AudioHelper.kt:290-301 | as written, every millisecond after the selection's end is dropped although it lies outside the selection |
| PodcastAudioHelperEditor.CutAsWrittenExample | app/src/main/java/com/podcastcreateur/app/AudioHelper.kt:296-301 | with the second second of a ten-second file selected, only the first second is kept |
| PodcastAudioHelperEditor.CutSelection | app/src/main/java/com/podcastcreateur/app/AudioHelper.kt:264-301 | no metadata: nothing; no selection (`start < 0 \|\| end <= start`): nothing; a zero sample rate: the conversion fails; otherwise a trim request |
| PodcastAudioHelperEditor.CutKeepsAllButSelection | app/src/main/java/com/podcastcreateur/app/AudioHelper.kt:284-301 | the intended cut keeps exactly the milliseconds of the file outside [startMs, endMs) |
| PodcastAudioHelperEditor.NormalizeSelection | app/src/main/java/com/podcastcreateur/app/AudioHelper.kt:335-358 | no metadata: nothing; a zero sample rate: the conversion fails; otherwise a millisecond range to normalise |
| PodcastAudioHelperEditor.NormalizeSelected | app/src/main/java/com/podcastcreateur/app/AudioHelper.kt:337-358 | a selection is normalised over its own milliseconds, start before end |
| PodcastAudioHelperEditor.NormalizeWholeFile | app/src/main/java/com/podcastcreateur/app/AudioHelper.kt:337-358 | with no selection the whole file is normalised, from 0 ms to the time of `totalSamples.toInt()` |
| PodcastAudioHelperEditor.EditorActivity.constructor | app/src/main/java/com/podcastcreateur/app/AudioHelper.kt:31-34 | no metadata and not playing |
| PodcastAudioHelperEditor.EditorActivity.LoadMetadata | app/src/main/java/com/podcastcreateur/app/AudioHelper.kt:102 | the metadata becomes the one read from the file, playing unchanged |
| PodcastAudioHelperEditor.EditorActivity.StopAudio | app/src/main/java/com/podcastcreateur/app/AudioHelper.kt:256-259 | playing is over, metadata unchanged |
| PodcastAudioHelperEditor.EditorActivity.PlayAudio | app/src/main/java/com/podcastcreateur/app/AudioHelper.kt:172-245 | nothing without metadata or while playing; otherwise the chunks of the playback range are written in order, at most 4096 samples each and at most as many as the stop allows, the playhead follows every chunk end that is a multiple of `sampleRate / 5`, a zero step fails after the first write, and playing is over at the end |
| PodcastAudioHelperEditor.EditorActivity.WriteChunks | app/src/main/java/com/podcastcreateur/app/AudioHelper.kt:209-229 | the write loop yields the first chunks of [startIdx, endIdx), as many as the budget allows, with the playhead updates at multiples of the step |
| PodcastEditorActivity.TimeDisplayOfPoint | app/src/main/java/com/podcastcreateur/app/EditorActivity.kt:234-241 | with a whole number of milliseconds per point, the `mm:ss` shown for point i reads back as the whole seconds of the point's time |
| PodcastEditorActivity.BackupRoundTrip | app/src/main/java/com/podcastcreateur/app/EditorActivity.kt:105-157 | seeking the fallback player to a point and reading its position back never lands after that point, and lands exactly on it when a point lasts a whole number of milliseconds |
| PodcastEditorActivity.CutRemovesSelection | app/src/main/java/com/podcastcreateur/app/EditorActivity.kt:182-187 | for a selection that fits the samples, the cut bounds are the selected points' samples (the end clipped to the size) and the new samples are the old ones with exactly that range removed |
| PodcastEditorActivity.NormalizeBounds | app/src/main/java/com/podcastcreateur/app/EditorActivity.kt:195-197 | the range never ends past the samples, and ends at the size when there is no positive selection end |
| PodcastEditorActivity.NormalizeWholeWithoutSelection | app/src/main/java/com/podcastcreateur/app/EditorActivity.kt:196-197 | with no selection the whole recording is normalised |
| PodcastEditorActivity.TrackRange | app/src/main/java/com/podcastcreateur/app/EditorActivity.kt:119-122 | the range starts at the playhead's sample and ends at the size when the selection is empty |
| PodcastEditorActivity.PlaysInChunks | app/src/main/java/com/podcastcreateur/app/EditorActivity.kt:135-148 | when the track accepts every write in full, the writes are the chunks of the range in order, and a finished run played all of them |
| PodcastEditorActivity.EditorActivity.constructor | app/src/main/java/com/podcastcreateur/app/EditorActivity.kt:25-53 | no samples, 44100 Hz, one channel, edit buttons off |
| PodcastEditorActivity.EditorActivity.UpdateEditButtons | app/src/main/java/com/podcastcreateur/app/EditorActivity.kt:57-62 | the samples are ready exactly when enabled, the cut and normalise buttons follow it, nothing else changes |
| PodcastEditorActivity.EditorActivity.OnPcmDecoded | app/src/main/java/com/podcastcreateur/app/EditorActivity.kt:86-92 | the decoded samples become the working copy at their rate, mono, and editing is enabled |
| PodcastEditorActivity.EditorActivity.Mode | app/src/main/java/com/podcastcreateur/app/EditorActivity.kt:95-97 | the sample-accurate track plays exactly when the samples are ready and present, else the media player |
| PodcastEditorActivity.EditorActivity.CutSelection | app/src/main/java/com/podcastcreateur/app/EditorActivity.kt:176-190 | nothing without samples or without a non-empty selection; the cut happens exactly when both copies fit the array, and then the working copy is a fresh array with the selected points' samples removed |
| PodcastEditorActivity.EditorActivity.NormalizeSelection | app/src/main/java/com/podcastcreateur/app/EditorActivity.kt:192-207 | nothing without samples; a range starting before the array fails and changes nothing; a silent or empty range changes nothing; otherwise every sample of the range becomes its scaled value clamped to 16 bits, for the range's peak, and every other sample is unchanged |
| PodcastEditorActivity.EditorActivity.PlayAudioTrack | app/src/main/java/com/podcastcreateur/app/EditorActivity.kt:115-151 | nothing without samples; otherwise the writes start at the playhead's sample, follow each other, each asks for the smaller of the buffer and what is left, the playhead moves to the point of each new offset, and the loop ends on the range end, a refused write, a failed copy or a zero `samplesPerPoint` |
| PodcastEditorActivity.EditorActivity.WriteTrack | app/src/main/java/com/podcastcreateur/app/EditorActivity.kt:134-148 | the write loop of the track yields a run that fits that description |
| PodcastWaveformView.ShiftedPlayhead | app/src/main/java/com/podcastcreateur/app/WaveformView.kt:116-118 | after removing [start, end) a playhead before the range stays, one after it moves back by the number of removed points, one inside it lands on start |
| PodcastWaveformView.PlayheadFollowsPoint | app/src/main/java/com/podcastcreateur/app/WaveformView.kt:105-118 | outside the removed range, the shifted playhead still designates the same peak |
| PodcastWaveformView.Released | app/src/main/java/com/podcastcreateur/app/WaveformView.kt:223-228 | a released selection is put in order, or cleared to (-1, -1) when empty |
| PodcastWaveformView.WaveformView.LastIndex | app/src/main/java/com/podcastcreateur/app/WaveformView.kt:63 | `(points.size - 1).coerceAtLeast(0)`: never negative, the last index when there are points |
| PodcastWaveformView.WaveformView.constructor | app/src/main/java/com/podcastcreateur/app/WaveformView.kt:19-25 | no points, no selection, playhead at 0, no drag, and the view's invariant holds |
| PodcastWaveformView.WaveformView.ClearData | app/src/main/java/com/podcastcreateur/app/WaveformView.kt:90-97 | no points, no selection, playhead at 0, the estimate unchanged |
| PodcastWaveformView.WaveformView.Initialize | app/src/main/java/com/podcastcreateur/app/WaveformView.kt:85-88 | the estimate is recorded, then the view is cleared |
| PodcastWaveformView.WaveformView.SetPlayhead | app/src/main/java/com/podcastcreateur/app/AudioHelper.kt:224 | the editor writes the playhead with any value, past the points included; the selection, the points and the view's invariant are kept |
| PodcastWaveformView.WaveformView.AppendData | app/src/main/java/com/podcastcreateur/app/WaveformView.kt:99-103 | the new points go at the end, in order, and nothing else changes |
| PodcastWaveformView.WaveformView.DeleteRange | app/src/main/java/com/podcastcreateur/app/WaveformView.kt:105-121 | an out-of-bounds or empty range changes nothing; otherwise exactly those points are removed, the selection cleared and the playhead shifted |
| PodcastWaveformView.WaveformView.OnSingleTapUp | app/src/main/java/com/podcastcreateur/app/WaveformView.kt:62-70 | the playhead goes to the touched point clamped to the buffer, the selection is cleared, and the new position is reported |
| PodcastWaveformView.WaveformView.OnLongPress | app/src/main/java/com/podcastcreateur/app/WaveformView.kt:72-82 | a drag starts with both selection ends and the playhead on the touched point, clamped, and the position is reported |
| PodcastWaveformView.WaveformView.OnTouchEvent | app/src/main/java/com/podcastcreateur/app/WaveformView.kt:204-239 | an event the detector consumes, or any event outside a drag, changes nothing; a move during a drag moves only the selection end; a release or cancel ends the drag and orders the selection, clears it when empty, otherwise moves the playhead to its start and reports it |
| PodcastWaveformView.WaveformView.EndDrag | app/src/main/java/com/podcastcreateur/app/WaveformView.kt:219-236 | the release branch: outside a drag nothing happens; during one the selection is released and the playhead follows a non-empty selection |
| SonWaveformView.Ordered | app/src/main/java/com/sonfusion/app/WaveformView.kt:130-134 | the released selection holds the same two ends, in increasing order |
| SonWaveformView.WaveformView.constructor | app/src/main/java/com/sonfusion/app/WaveformView.kt:16-37 | no samples, no selection, playhead at 0 |
| SonWaveformView.WaveformView.SetWaveform | app/src/main/java/com/sonfusion/app/WaveformView.kt:39-43 | the view shows the new samples; selection and playhead are kept |
| SonWaveformView.WaveformView.ClearSelection | app/src/main/java/com/sonfusion/app/WaveformView.kt:52-56 | both selection ends become -1, the playhead and samples are untouched |
| SonWaveformView.WaveformView.OnTouchEvent | app/src/main/java/com/sonfusion/app/WaveformView.kt:112-139 | handled exactly when there are samples and a width; the index is clamped to [0, size]; a press puts both ends and the playhead there, a move sets the selection end, a release or cancel orders the selection, any other action changes nothing |
| SonWaveformView.WaveformView.OrderSelection | app/src/main/java/com/sonfusion/app/WaveformView.kt:128-134 | the selection's ends are put in increasing order, nothing else changes |
| SonWaveformView.PressDragRelease | app/src/main/java/com/sonfusion/app/WaveformView.kt:112-139 | a press, a drag and a release leave the selection in order between the press and drag points, within [0, size], with the playhead at the press point |
| SonAudioHelper.FirstAudio | app/src/main/java/com/sonfusion/app/AudioHelper.kt:39-47 | none exactly when no track's MIME type starts with `audio/`; otherwise the first such track |
| SonAudioHelper.FirstAudioTrack | app/src/main/java/com/sonfusion/app/AudioHelper.kt:40-47 | the track loop finds the first audio track |
| SonAudioHelper.GetAudioMetadata | app/src/main/java/com/sonfusion/app/AudioHelper.kt:28-83 | the method's early returns give the metadata of the file's first audio track, or none |
| SonAudioHelper.MetadataFacts | app/src/main/java/com/sonfusion/app/AudioHelper.kt:28-83 | metadata exactly when the file exists, opens and has an audio track; 44100 Hz and one channel stand in for missing keys; no samples for a missing or non-positive duration; the whole seconds of the duration, rounded toward zero |
| SonAudioHelper.SkipFactor | app/src/main/java/com/sonfusion/app/AudioHelper.kt:97 | the skip factor is at least 1 |
| SonAudioHelper.SkipFactorSpreads | app/src/main/java/com/sonfusion/app/AudioHelper.kt:96-97 | with at least `targetPoints` samples, keeping one sample in k leaves between `targetPoints` and twice as many points |
| SonAudioHelper.Average | app/src/main/java/com/sonfusion/app/AudioHelper.kt:180 | `((a + b) / 2).toShort()` lies between the two samples and is their mean rounded toward zero |
| SonAudioHelper.PicksCount | app/src/main/java/com/sonfusion/app/AudioHelper.kt:177 | a buffer gives as many preview values as multiples of the stride below its size |
| SonAudioHelper.PicksAt | app/src/main/java/com/sonfusion/app/AudioHelper.kt:177-185 | the j-th preview value of a buffer is the one at j times the stride, a stereo pair averaged |
| SonAudioHelper.DownsampleBuffer | app/src/main/java/com/sonfusion/app/AudioHelper.kt:177-185 | the loop over one buffer picks the value at every multiple of the stride |
| SonAudioHelper.LoadWaveformPreview | app/src/main/java/com/sonfusion/app/AudioHelper.kt:89-204 | no metadata: no samples at 44100 Hz; no samples counted: none at the file's rate; otherwise the values picked from every non-empty decoded buffer at the current channel count, a non-positive stride ending the preview |
| SonAudioHelper.ToMono | app/src/main/java/com/sonfusion/app/AudioHelper.kt:312-320 | the loop fills the mono buffer with the down-mix of the decoded samples |
| SonAudioHelper.Interleave | app/src/main/java/com/sonfusion/app/AudioHelper.kt:309-315 | two channels laid out frame by frame have twice the frames |
| SonAudioHelper.DownmixStereo | app/src/main/java/com/sonfusion/app/AudioHelper.kt:312-320 | down-mixing a stereo buffer gives one sample per frame between its two samples, and a signal carried on both channels comes back unchanged |
| SonAudioHelper.FlattenAppend | app/src/main/java/com/sonfusion/app/AudioHelper.kt:326-338 | the bytes of buffers queued one list after another are the two byte sequences joined |
| SonAudioHelper.ByteChunksFacts | app/src/main/java/com/sonfusion/app/AudioHelper.kt:326-338 | the 4096-byte buffers hand over exactly the bytes, in order, none empty, only the last one short |
| SonAudioHelper.StampedSnoc | app/src/main/java/com/sonfusion/app/AudioHelper.kt:335-336 | queueing one more buffer stamps it with the clock so far and advances the clock by its rounded duration |
| SonAudioHelper.ClockNeverAhead | app/src/main/java/com/sonfusion/app/AudioHelper.kt:336 | the merge's clock never runs ahead of the exact duration of the bytes queued, and falls behind it by at most one microsecond per buffer |
| SonAudioHelper.StampsNondecreasing | app/src/main/java/com/sonfusion/app/AudioHelper.kt:335-336 | with a positive sample rate the presentation times never go backwards |
| SonAudioHelper.ProgressRises | app/src/main/java/com/sonfusion/app/AudioHelper.kt:240 | for fewer than 21474837 files the reports start at 0, end at 100, stay within [0, 100] and never go back |
| SonAudioHelper.FeedEncoder | app/src/main/java/com/sonfusion/app/AudioHelper.kt:326-338 | one mono buffer is queued in 4096-byte pieces stamped with the running clock; a zero divisor fails on the first piece |
| SonAudioHelper.FeedFile | app/src/main/java/com/sonfusion/app/AudioHelper.kt:273-352 | the decoder loop of one file queues the buffers of its decoded output, the channel count following format changes |
| SonAudioHelper.MergeFilesStreaming | app/src/main/java/com/sonfusion/app/AudioHelper.kt:210-397 | no inputs or no metadata for the first one: failure with no reports; otherwise success exactly when every file opens (and the divisor is not zero while there is audio), with the progress reports, every decodable file's buffers in order, and each stamped with the clock before it; a failure after the first metadata carries the progress reports up to and including the first file that stops the merge |
| SonAudioHelper.MergeEachFile | app/src/main/java/com/sonfusion/app/AudioHelper.kt:239-357 | the loop over the files stops at the first file that cannot be opened and otherwise queues all their buffers |
| SonAudioHelper.MergeFile | app/src/main/java/com/sonfusion/app/AudioHelper.kt:240-356 | one file: report the progress, fail when it cannot be opened, skip it without an audio track, else queue its buffers |
| SonAudioHelper.MergeStopsEarly | app/src/main/java/com/sonfusion/app/AudioHelper.kt:243 | a file that stops the loop makes the whole merge fail |
| SonAudioHelper.MergedAudio | app/src/main/java/com/sonfusion/app/AudioHelper.kt:239-357 | the encoder receives exactly the mono samples of every file with an audio track, file after file, as little-endian bytes in buffers of 1 to 4096 bytes |
| SonAudioHelper.FileAudio | app/src/main/java/com/sonfusion/app/AudioHelper.kt:273-352 | one file's buffers carry exactly its mono samples as little-endian bytes |
| SonAudioHelper.PutShorts | app/src/main/java/com/sonfusion/app/AudioHelper.kt:464-468 | the `putShort` loop lays the samples out little-endian in a fresh array |
| SonAudioHelper.SavePcmToAacAsWritten | app/src/main/java/com/sonfusion/app/AudioHelper.kt:443-520 | as written: failure exactly when the divisor wraps to 0 with samples to save; the samples' bytes in 4096-byte buffers, each stamped with the time of the end of its data |
| SonAudioHelper.SavePcmToAac | app/src/main/java/com/sonfusion/app/AudioHelper.kt:443-520 | corrected: the same buffers and failure cases, each buffer stamped with the time of its first byte |
| SonAudioHelper.SaveStampsShifted | app/src/main/java/com/sonfusion/app/AudioHelper.kt:484-486 | the corrected stamps start at 0 and each as-written stamp is the corrected stamp of the next buffer: the as-written times run one buffer ahead |
| SonAudioHelper.SaveStampAsWrittenExample | app/src/main/java/com/sonfusion/app/AudioHelper.kt:484-486 | one sample saved at 44100 Hz is stamped at 22 µs as written instead of 0 |

## Left out

- MediaCodec, MediaExtractor, MediaMuxer, AudioTrack, AudioRecord, MediaPlayer and MediaRecorder are foreign Android APIs. This includes the dequeue/queue loops and `drainEncoder`. Only the arithmetic around them is modelled: the decoder's output is a given sequence of buffers, and the encoder is the sequence of buffers queued into it with their presentation times.
- The muxer's track setup is not modelled. `loadWaveformPreview` opens the file twice: `getAudioMetadata` reads the duration, from which the sample count comes (the `samplesFor` parameter), and a second extractor decodes. Both opens read the same `MediaFile`, so a file that opens the first time and fails the second (`app/src/main/java/com/sonfusion/app/AudioHelper.kt:100-104`) is not represented.
- Threads, coroutines, `runOnUiThread`, `lifecycleScope` and the `isPlaying` flags that other threads clear are not modelled. A stop request is a number of writes made before it is seen (`stopAfter`), and every operation runs to completion.
- Exceptions are modelled only where the source turns them into a result (a failed copy, a zero divisor, a file that cannot be opened). Other catch-all handlers are not modelled.
- Floating-point code is not modelled: zoom, `onMeasure`/`onDraw` geometry, `pixelToIndex`/`sampleToPixel`, `autoScroll` and `applyZoom` in both waveform views. Touches arrive as integer indices.
- The normalisation gain and clipping factor is a parameter (`scale`/`gain`).
- `totalSamples`, computed from a `Double`, is a parameter of the metadata.
- `cutAudio`'s `Double` arguments appear as their decimal text.
- Unicode character classes (`\p{L}`), `ignoreCase` comparisons and NFD accent stripping are given functions, not reimplementations of Unicode.
- `POINTS_PER_SECOND`, the `AudioMetadata` type and the `trimAudio`/`normalizeAudio`/`decodeToPCM` helpers are defined in files that are not part of this model. They are parameters or values.
- `WavUtils.UpdateHeader` models `updateHeader` on the file's bytes as values. It does not model the `RandomAccessFile` seek and write.
- `glob.glob`, the order of `os.listdir`, text decoding with `errors='ignore'` and real reads and writes are given functions and sequences.
- Time stamps (`System.currentTimeMillis`, `SimpleDateFormat`) in generated names are parameters.
- Toasts, dialogs, adapters, view invalidation and logging are not modelled.
- `HomeActivity.kt`, both `RecorderActivity.kt` files and `ScriptEditorActivity.kt` are UI plumbing and are not part of this model. The recorder launch is modelled as the request it makes.
- Not part of this model: podcastcreateur `EditorActivity`'s `saveChanges`, `refreshWaveformFromPcm` and the media-player position loop. The seek/read-back arithmetic of that loop is covered by `BackupRoundTrip`.
- Not part of this model: `loadWaveform` and `generateWaveformData` of the streaming editor.
- SonEditorActivity.NormalizeSelection: requires a non-empty normalisation range to end within the samples. The source would index past the array for a selection end beyond it, and that exception path is not modelled.
- PodcastAudioHelperEditor.EditorActivity.PlayAudio: the `isPlaying` flag that the UI clears is modelled as the `stopAfter` write budget.
- SonEditorActivity.PlayAudio: the `isPlaying` flag that the UI clears is modelled as the `stopAfter` write budget.
- SourceAggregator.RunTasks: every task reads the same file-system value, so a file one task writes under `tmp_IA` is not seen by the later tasks. This is harmless for the shipped table, since every output ends in `.txt` and no task collects `.txt` files. The `os.makedirs('tmp_IA')` before the loop is not modelled. Neither is an exception from `os.listdir` or from opening the output, which would stop the remaining tasks.
- SonAudioHelper.MergeFile: in the chronicle app's `mergeFilesStreaming` (`app/src/main/java/com/sonfusion/app/AudioHelper.kt:259` and `:263`), `continue` stands inside the `forEachIndexed` lambda with no loop around it, which Kotlin does not accept as written. The model reads it as `return@forEachIndexed`: a file with no audio track or no MIME type is skipped, and the merge goes on with the next file.

## Findings

| source | as written | input that shows it | evidently intended | confidence | as-written member | corrected member |
|---|---|---|---|---|---|---|
| app/src/main/java/com/sonfusion/app/AudioHelper.kt:476-486 | `savePCMToAAC` advances `inputOffset` before computing the presentation time, so each buffer is stamped with the time of the end of its data | one sample at 44100 Hz is stamped at 22 µs instead of 0 | each buffer is stamped with the time of its first byte, as `mergeFilesStreaming` does | not executed | SonAudioHelper.SavePcmToAacAsWritten, SonAudioHelper.SaveStampAsWrittenExample | SonAudioHelper.SavePcmToAac, SonAudioHelper.SaveStampsShifted |
| app/src/main/java/com/podcastcreateur/app/AudioHelper.kt:290-301 | `performCut` asks `trimAudio` to keep (0, startMs), so `endMs` is never used and everything after the selection is lost | a 10 s file at 44100 Hz with samples 44100 to 88200 selected keeps only [0, 1000) ms, so millisecond 5000, far after the selection, is lost | keep everything outside [startMs, endMs) | not executed | PodcastAudioHelperEditor.CutSelectionAsWritten, PodcastAudioHelperEditor.CutAsWrittenExample | PodcastAudioHelperEditor.CutSelection, PodcastAudioHelperEditor.CutKeepsAllButSelection |
| app/src/main/java/com/sonfusion/app/ProjectActivity.kt:359 | `onRename` refuses only an empty or unchanged name, so a chronicle can take a name another chronicle has. `saveOrderOnDisk` then moves one script onto the other | `000_A.txt` and `001_A.txt`, listed in the order 001_A, 000_A: `001_A.txt -> 000_A.txt` replaces the other script, then `000_A.txt -> 001_A.txt`, and only `001_A.txt` is left | a name another chronicle already has is refused, ignoring case, as the creation dialog does | not executed | SonProjectActivity.DuplicateNamesLoseScript | SonProjectActivity.CheckedRenameKeepsNamesDistinct |
