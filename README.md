# Shulchan Aruch Yomi: a Dafny model of the bot's core

Shulchan Aruch Yomi is a Telegram bot. Every day it sends two halachot,
each from a different volume of the Shulchan Aruch. This project models
the logic under the Telegram and HTTP plumbing, and proves properties of
the model:

- the records and the pairing invariant (`models.dfy`);
- the deterministic daily selection, with its memory, message and
  snapshot caches (`selector.dfy`, over `random.dfy`);
- cleaning the text fetched from Sefaria, catalog lookup and the bounded
  retry that draws a random siman (`sefaria.dfy`);
- message formatting: `split_text`, the messages of one halacha, the
  day's messages and the cached fixed texts (`formatter.dfy`);
- the sentence and word chunker that runs before speech synthesis
  (`tts.dfy`);
- the replies to `/start` and `/today` (`commands.dfy`);
- the persisted subscriber set (`subscribers.dfy`);
- the polling script: the offset state file, command-token normalisation,
  dispatch, and the update loop with its max-and-save rule (`poll.dfy`).
  What a batch sends and how it leaves the subscriber set are stated as
  folds over its commands (`RunReplies`, `RunSubs`) starting from the
  state before the run. This holds because a run changes the day's cached
  messages at most once, from none to the welcome and the day's messages
  (`HalachaSelector.Settles`), which leaves the `/start` and `/today`
  replies as they were.

Three helper modules model the Python built-ins the core relies on:

- `text.dfy`: `str.isspace`, `strip`, `split`, `in` and `replace`;
- `decimal.dfy`: integer rendering and zero padding;
- `dates.dfy`: `date.isoformat` and `strftime("%d/%m/%Y")`.

`wrappers.dfy` holds `Option` and `Result`.

The code's form follows the source:

- Frozen records are datatypes, and the string builders are functions.
- The Sefaria client, the selector with its module-level caches, the
  static-message cache, the subscriber store and the poller are classes.
  Their fields are updated by methods with `modifies` clauses.
- The loops of `split_text`, `sorted`, `random.shuffle`, the retry loop
  and the update loop are `while` loops. The loops of
  `format_halacha_messages` and `chunk_text` are `for` loops. Each loop is
  proved against a function that specifies it.

Things the model takes as parameters:

- **Abstract values:**
  - HTTP answers are an oracle `getText`.
  - The catalog file is a value.
  - Snapshot files and the state files are maps or datatypes. Each has a
    "corrupt" case.
  - SHA-256 followed by the Mersenne Twister is an arbitrary stream of
    draws, one per seed string.
- **Other parameters:**
  - The date of the run.
  - Telegram's answer to `get_updates`, as a function of the offset.
  - Whether speech synthesis is enabled.

## Model

| member | source | states |
|---|---|---|
| Models.NewDailyPair | src/models.py:50-53 | construction fails exactly when both halachot have the same English volume name; otherwise the pair holds the given halachot and seed |
| Models.SameNameRejected | src/models.py:52 | only the English name is compared: records that differ elsewhere are still rejected |
| Models.ReferenceRoundTrip | src/models.py:26-31 | the reference parses back to the siman, and to the seif exactly when there is one |
| Models.HebrewReferenceNames | src/models.py:33-39 | the display reference contains "שולחן ערוך", the volume's Hebrew name and "סימן n" |
| Models.HebrewReferenceSeif | src/models.py:33-39 | "סעיף" appears if and only if the halacha is a single seif, and then names it |
| Decimal.IntToStringRoundTrip | src/models.py:30 | the f-string rendering of an integer parses back to it |
| Decimal.PaddedRoundTrip | src/selector.py:35 | a zero-padded field parses back to its number |
| Dates.IsoRoundTrip | src/selector.py:33-35 | the ISO seed string reads back as the date it came from |
| Dates.IsoInjective | src/selector.py:33-35 | distinct dates have distinct seeds |
| Dates.DisplayDate | src/formatter.py:71 | `%d/%m/%Y` is ten characters with slashes at positions 2 and 5 |
| Random.RandInt | src/sefaria.py:140 | one draw taken, result in the closed range |
| Random.ShuffledPermutes | src/selector.py:45-46 | a shuffle is a permutation and keeps a list duplicate-free |
| Random.Shuffle | src/selector.py:46 | the in-place Fisher-Yates loop leaves the array equal to `Shuffled` of its old contents |
| Text.LStrip | src/formatter.py:33 | drops exactly a leading whitespace run; the result starts with no whitespace |
| Text.StripAllSpace | src/tts.py:125-127 | stripping gives "" exactly when the text is all whitespace |
| Text.WordsStrip | scripts/poll_commands.py:237-241 | stripping does not change the whitespace-separated words |
| Text.HasInfixContains | src/selector.py:221-225 | the computed substring test agrees with the definition of `in` |
| Text.SplitJoinRoundTrip | src/sefaria.py:107 | splitting a joined list on its one-character separator gives the list back, when no part contains the separator |
| Sefaria.StripTagsNoTag | src/sefaria.py:127 | no `<[^>]+>` match is left after tag removal |
| Sefaria.StripTagsIdentity | src/sefaria.py:127 | text without tags is unchanged by tag removal |
| Sefaria.CollapseSingleSpaced | src/sefaria.py:128 | after collapsing, every whitespace is a single plain space |
| Sefaria.CleanTextIsClean | src/sefaria.py:123-129 | a cleaned text has no tag, no leading or trailing whitespace, and no whitespace run |
| Sefaria.CleanTextFixesClean | src/sefaria.py:123-129 | a clean text is left unchanged |
| Sefaria.CleanTextIdempotent | src/sefaria.py:123-129 | cleaning twice is cleaning once |
| Sefaria.CleanHasNoNewline | src/sefaria.py:100-107 | a cleaned seif has no newline, so the joined text splits back into seifim |
| Sefaria.CleanSeifimClean | src/sefaria.py:100-101 | every kept seif is non-empty and clean |
| Sefaria.SimanTextOutcome | src/sefaria.py:92-111 | there is no text exactly when the request failed, no seif survives cleaning, or the joined text is under 10 characters; otherwise the text splits line by line into the cleaned seifim |
| Sefaria.FetchFullSiman | src/sefaria.py:87-121 | succeeds exactly when the answer has text; gives the whole siman of the volume with that text and the web link of its reference |
| Sefaria.FindVolume | src/sefaria.py:68-73 | none exactly when no entry has the name; otherwise the first entry with it |
| Sefaria.AttemptsDraws | src/sefaria.py:139-152 | takes from one to ten draws, all ten when no fetch succeeds |
| Sefaria.AttemptsFound | src/sefaria.py:139-147 | a found halacha is the fetch of the last draw taken |
| Sefaria.AttemptsEarlierFail | src/sefaria.py:139-147 | every earlier draw failed to fetch |
| Sefaria.AttemptsExhausted | src/sefaria.py:139-152 | the result is none exactly when all draws fail |
| Sefaria.RandomHalachaInVolume | src/sefaria.py:139-147 | the result is a whole siman of the volume with number in [1, maxSiman] |
| Sefaria.SefariaClient.Catalog | src/sefaria.py:42-53 | gives the file's catalog, or FileNotFoundError; afterwards the cache holds the file's catalog whenever there is one; a loaded cache is neither reloaded nor changed; a first load counts one load; a missing file changes nothing |
| Sefaria.SefariaClient.GetVolume | src/sefaria.py:68-73 | the first catalog entry with the name, or the catalog's error; the catalog cache changes as `Catalog` says |
| Sefaria.SefariaClient.GetRandomHalacha | src/sefaria.py:131-152 | the retry loop computes `Attempts` with ten attempts |
| Formatter.RFindSpace | src/formatter.py:29 | the last space before the end, or -1 when there is none |
| Formatter.CutOnce | src/formatter.py:29-33 | one cut takes off the next chunk of the specified list, and what remains is shorter |
| Formatter.SplitText | src/formatter.py:20-34 | the loop computes the specified chunk list |
| Formatter.SplitChunksBound | src/formatter.py:25-33 | no chunk of the loop is longer than the limit |
| Formatter.SplitChunksContent | src/formatter.py:28-33 | the chunks hold every non-whitespace character of the text, in order |
| Formatter.SplitChunksSlices | src/formatter.py:28-33 | each chunk is the next slice of the text, and only the whitespace after a cut is dropped (`Slices`) |
| Formatter.TextChunksSpec | src/formatter.py:20-34 | text that fits is returned as its one chunk; every chunk fits unless it is that whole text; the chunks keep every visible character in order; the chunks are consecutive slices of the text with only whitespace dropped at the cuts; no chunk is empty when the text does not start with a space |
| Formatter.TextChunksBound | src/formatter.py:20-34 | with a limit of at least 1, every chunk fits |
| Formatter.BuildMessages | src/formatter.py:57-62 | the loop computes one message per chunk |
| Formatter.FormatHalachaMessages | src/formatter.py:37-64 | computes the specified messages of a halacha |
| Formatter.MessagesShape | src/formatter.py:57-62 | one message per chunk; every message but the last is exactly its opening (the base first, then the continuation title) followed by its chunk; the last is its opening, its chunk and the footer |
| Formatter.HalachaMessagesFit | src/formatter.py:54-62 | every message is at most 4000 characters when `available >= 1` |
| Formatter.HalachaMessagesFrame | src/formatter.py:50-62 | one message per chunk; each message is exactly its opening (header and title first, then title and continuation mark) and its chunk, the last followed by the link; the chunks are consecutive slices of the text and keep its visible characters |
| Formatter.TitleSeif | src/formatter.py:43-47 | the title contains "סעיף" if and only if there is a seif, and then names it |
| Formatter.HeaderDate | src/formatter.py:50 | the banner is present exactly when a date is given, and shows it |
| Formatter.DailyBanner | src/formatter.py:71-75 | the first halacha's opening starts with a banner that shows the date; the second's opening is its bare title |
| Formatter.FormatDailySpec | src/formatter.py:67-76 | the first halacha's run, then the second's; each opens with its own base, and every message fits |
| Formatter.CompactFits | src/formatter.py:54 | a halacha with short link and names leaves room for text |
| Formatter.StaticMessages.constructor | src/formatter.py:10-17 | empty cache; the three generators' texts |
| Formatter.StaticMessages.Get | src/formatter.py:13-17 | returns the key's generated text; the generator runs only when the key is not cached |
| Formatter.StaticMessages.Welcome | src/formatter.py:79-91 | the welcome text, cached under "welcome" |
| Formatter.StaticMessages.Info | src/formatter.py:94-113 | the info text, cached under "info" |
| Formatter.StaticMessages.Error | src/formatter.py:116-122 | the error text, cached under "error" |
| Tts.BreakFrom | src/tts.py:131 | the first position where a stop character is followed by whitespace |
| Tts.SentencesKeepWords | src/tts.py:131-132 | splitting into sentences keeps every word, in order |
| Tts.CandidateWords | src/tts.py:137-147 | a candidate holds the words of both parts |
| Tts.Advance | src/tts.py:137-153 | the next piece joins the current chunk exactly when the candidate fits; otherwise the current chunk, if any, is emitted |
| Tts.PlaceWord | src/tts.py:147-154 | chunks stay good and every word is kept |
| Tts.PackWords | src/tts.py:145-154 | the word loop keeps every word of the sentence and produces only good chunks |
| Tts.PlaceSentence | src/tts.py:137-156 | chunks stay good and the sentence's words are kept |
| Tts.PackSentences | src/tts.py:137-159 | the sentence loop and the last chunk keep every word and produce only good chunks |
| Tts.ChunkText | src/tts.py:123-161 | no chunk exactly for blank text; the stripped text alone when it fits; every chunk non-empty and within the limit unless it is one over-long word; all words kept in order |
| Selector.DailySeed | src/selector.py:33-35 | the seed is ten characters and reads back as the date |
| Selector.CachePathInjective | src/selector.py:53-55 | different dates never share a snapshot file |
| Selector.VolumeNamesDistinct | src/sefaria.py:16 | the four volume names are distinct |
| Selector.SelectVolumesSpec | src/selector.py:43-51 | the volumes are those named first and second by a shuffle, so they differ; CatalogMissing exactly when there is no catalog; VolumeMissing exactly when a name is absent |
| Selector.Fallback | src/selector.py:153-162 | seif 1, siman in [1, maxSiman], one draw taken |
| Selector.FallbackMarked | src/selector.py:153-162 | a fallback's text carries the marker |
| Selector.FallbackLink | src/selector.py:161 | the fallback links to the siman's web page |
| Selector.FallbackNotSaveable | src/selector.py:221-226 | a pair with a fallback halacha is never written to the snapshot |
| Selector.OrFallbackSpec | src/selector.py:208-213 | a drawn or fallback halacha belongs to its volume, is in range, and is compact |
| Selector.FreshPair | src/selector.py:177-219 | a fresh pair has compact halachot |
| Selector.FreshPairSpec | src/selector.py:177-219 | exists exactly when the volumes could be chosen; seeded with the ISO date; one halacha of each chosen volume, in order |
| Selector.SnapshotRoundTrip | src/selector.py:57-151 | reading back a written snapshot gives the pair and its messages |
| Selector.HalachaSelector.constructor | src/selector.py:20-31 | empty memory and message caches |
| Selector.HalachaSelector.DayMessages | src/selector.py:113-115 | the welcome, then at least two formatted messages |
| Selector.HalachaSelector.SelectTwoVolumes | src/selector.py:43-51 | computes `SelectVolumes` over the client's catalog |
| Selector.HalachaSelector.Compute | src/selector.py:177-219 | computes `FreshPair` |
| Selector.HalachaSelector.LoadCachedPair | src/selector.py:57-106 | memory first, then the snapshot; a durable hit is promoted into both memory caches; nothing else changes |
| Selector.HalachaSelector.Promote | src/selector.py:91-100 | the pair goes into memory; the snapshot's messages, or freshly formatted ones, go into the message cache |
| Selector.HalachaSelector.SaveCachedPair | src/selector.py:108-151 | the message cache and the snapshot receive `[welcome] + format_daily_message` |
| Selector.HalachaSelector.Keep | src/selector.py:221-228 | memory always keeps the pair; the snapshot and message cache are written exactly when the pair has no fallback |
| Selector.HalachaSelector.PairFrom | src/selector.py:164-219 | the day's pair for given caches: the cache error, the cached pair, or the fresh pair; a pair found has compact halachot |
| Selector.HalachaSelector.GetDailyPair | src/selector.py:164-230 | returns `PairFrom` of the old caches, and asking again gives the same pair; the day's cached messages either stay as they were or go from none to the welcome and the pair's messages; a cache error or a failed fresh pair changes nothing; a memory hit changes nothing; a snapshot hit is promoted into memory and the message cache; a fresh pair goes into memory, and into the message cache and the snapshot exactly when it has no fallback |
| Selector.HalachaSelector.GetCachedMessages | src/selector.py:232-248 | returns `CachedMessagesFrom` of the old caches: the message-cache entry; else the snapshot's messages, promoted with the pair into both memory caches; none when neither tier has it; the snapshot is never written, asking again gives the same answer, and the day's pair stays the same |
| Commands.DailyReplies | src/commands.py:43 | at least two messages, each within the limit |
| Commands.StartMessages | src/commands.py:27-50 | a non-empty cached list verbatim; otherwise the welcome first, followed by the error text when a lookup failed |
| Commands.TodayMessages | src/commands.py:53-74 | never empty; `cached[1:]` when the cache holds more than one message; `[error]` on an exception |
| Commands.StartIsWelcomeThenToday | src/commands.py:27-74 | `/start` is the welcome followed by `/today` whenever the cached list starts with the welcome and is not the welcome alone |
| Commands.StartAloneWelcome | src/commands.py:27-74 | a cache of the welcome alone is where the two replies differ |
| Commands.FreshRepliesFit | src/commands.py:40-71 | freshly formatted replies fit in a Telegram message |
| Commands.GetStartMessages | src/commands.py:27-50 | the reply is `StartMessages` of the day's cached messages and the day's pair, both computed from the selector's state before the call; the day's pair stays the same, and the day's cached messages either stay or go from none to the welcome and the pair's messages |
| Commands.StartFrom | src/commands.py:34-50 | given the day's cached messages, the reply is their `StartMessages` with the day's pair before the call; the cache only fills as above |
| Commands.SettledReplies | src/commands.py:27-74 | filling an empty day cache with the welcome and the pair's messages changes neither the `/start` nor the `/today` reply |
| Commands.FreshStart | src/commands.py:40-47 | on a cache miss, the reply is `StartMessages` of the day's pair before the call; the day's pair stays the same and the cache only fills |
| Commands.GetTodayMessages | src/commands.py:53-74 | the reply is `TodayMessages` of the day's cached messages and the day's pair, both computed from the selector's state before the call; the day's pair stays the same and the cache only fills |
| Commands.FreshToday | src/commands.py:66-71 | on a cache miss, the reply is `TodayMessages` of the day's pair before the call; the day's pair stays the same and the cache only fills |
| Subscribers.Load | src/subscribers.py:13-22 | the ids in the file; empty for a missing or unreadable file |
| Subscribers.Minimum | src/subscribers.py:28 | every non-empty id set has a least member |
| Subscribers.SortedList | src/subscribers.py:28 | `sorted(s)`: strictly increasing, with exactly the members of `s` |
| Subscribers.SortedListUnique | src/subscribers.py:28 | a set has only one sorted list |
| Subscribers.EmptyList | src/subscribers.py:28 | the sorted list is empty exactly when the set is |
| Subscribers.SubscriberStore.Save | src/subscribers.py:25-31 | the file holds the sorted list of the set, and loads back as the set |
| Subscribers.SubscriberStore.Add | src/subscribers.py:34-42 | true exactly when the id was absent; the id is a member afterwards; the file is not rewritten when it was present |
| Subscribers.SubscriberStore.Remove | src/subscribers.py:45-53 | true exactly when the id was present; the id is absent afterwards; the file is not rewritten when it was absent |
| Subscribers.SubscriberStore.IsSubscribed | src/subscribers.py:56-58 | membership in the loaded set |
| Subscribers.SubscriberStore.Count | src/subscribers.py:61-63 | the loaded set's size |
| Poll.LoadState | scripts/poll_commands.py:38-46 | 0 for a missing or undecodable file, a missing key, or a string `int()` rejects; fails exactly for a non-object, a null id or a non-numeric id |
| Poll.StateRoundTrip | scripts/poll_commands.py:49-53 | loading a saved state gives the id back |
| Poll.Lower | scripts/poll_commands.py:241 | same length, ASCII letters lowered, no capital left |
| Poll.CommandToken | scripts/poll_commands.py:240-241 | a token starts with "/" and has no whitespace, "@" or capital |
| Poll.CommandTokenSpec | scripts/poll_commands.py:241 | the token is the lowered longest prefix without whitespace or "@" |
| Poll.TokenPrefix | scripts/poll_commands.py:241 | the first word cut at its first "@" is that longest prefix |
| Poll.CommandTokenIdempotent | scripts/poll_commands.py:241 | normalising a token changes nothing |
| Poll.CommandTokenOfWord | scripts/poll_commands.py:241 | a word followed by "@bot", whitespace or nothing gives the word lowered |
| Poll.Route | scripts/poll_commands.py:65-148 | `/info`, `/about` and `/help` are aliases; any other unknown command is ignored |
| Poll.TextsThenSentTo | scripts/poll_commands.py:71-86 | texts and a voice message to a chat extend the sent log with messages to that chat only |
| Poll.CommandsOfTokens | scripts/poll_commands.py:234-243 | every handled command is a normalised token; at most one per update |
| Poll.NextSubs | scripts/poll_commands.py:65-145 | one command changes the subscriber set only for its own chat |
| Poll.RunSubsOthers | scripts/poll_commands.py:230-243 | a batch changes the subscriber set only for chats that sent it commands |
| Poll.MaxIdBounds | scripts/poll_commands.py:230-232 | the new id is at least the old one and every update's id, and is one of them |
| Poll.MaxIdAdvances | scripts/poll_commands.py:245-246 | the state is rewritten exactly when some update is newer than the loaded id |
| Poll.Poller.constructor | scripts/poll_commands.py:177-178 | nothing sent or handled yet |
| Poll.Poller.SendAll | scripts/poll_commands.py:71-77 | each message goes to the chat, in order |
| Poll.Poller.VoiceStep | scripts/poll_commands.py:80-86 | one message to the chat exactly when speech is enabled: the pair's voice, or the error text when the lookup raised |
| Poll.Poller.Voice | scripts/poll_commands.py:80-86 | appends `VoiceStep` of the day's pair before the call; the day's pair stays the same and the day's cache only fills |
| Poll.Poller.RepliesSettle | src/commands.py:27-74 | once the day's cache has only filled, `/start` and `/today` reply as they did before |
| Poll.Poller.Reply | scripts/poll_commands.py:56-159 | everything a command sends goes to its chat; an alias or subscription command sends one message and an unknown command none |
| Poll.Poller.RunReplies | scripts/poll_commands.py:230-243 | a batch without commands sends nothing |
| Poll.Poller.RunRepliesChats | scripts/poll_commands.py:230-243 | a batch sends only to chats that sent it commands |
| Poll.Poller.RunExtend | scripts/poll_commands.py:234-243 | one more command appends its `Reply` to the batch's replies and moves the subscriber set by `NextSubs` |
| Poll.Poller.RunStep | scripts/poll_commands.py:234-243 | an update without a command leaves the batch's replies and subscriber set as they were; one with a command extends them |
| Poll.Poller.Start | scripts/poll_commands.py:65-86 | subscribes the chat; appends `StartMessages` of the day's cached messages and pair before the call, then `VoiceStep` of that pair; the day's pair stays the same and the day's cache only fills |
| Poll.Poller.Today | scripts/poll_commands.py:88-105 | appends `TodayMessages` of the day's cached messages and pair before the call, then `VoiceStep` of that pair; the day's pair stays the same and the day's cache only fills |
| Poll.Poller.Subscribe | scripts/poll_commands.py:116-130 | adds only an absent id; the notice says which case applied |
| Poll.Poller.Unsubscribe | scripts/poll_commands.py:132-145 | removes the id; the notice follows `remove_subscriber`'s result |
| Poll.Poller.HandleCommand | scripts/poll_commands.py:56-159 | appends exactly the command's `Reply` to the subscribers, `/start` and `/today` replies and pair before the call, so only to the sender; the subscriber set becomes `NextSubs` of the old one; `/today`, an alias, an unknown command and `/subscribe` of a subscribed chat leave the file alone; `/start` and `/today` send something; the day's pair stays the same and the day's cache only fills |
| Poll.Poller.DailyCommand | scripts/poll_commands.py:65-105 | the `/start` and `/today` branches: as `HandleCommand` says for them |
| Poll.Poller.OtherCommand | scripts/poll_commands.py:107-148 | the other branches: as `HandleCommand` says for them, whatever the day's replies |
| Poll.Poller.HandleUpdate | scripts/poll_commands.py:234-243 | an update with a command appends its `Reply` and moves the subscriber set by `NextSubs`; one without changes neither; the day's pair stays the same and the day's cache only fills |
| Poll.Poller.HandleInRun | scripts/poll_commands.py:234-243 | inside a batch, the sent log and the subscriber set stay the batch's `RunReplies` and `RunSubs` from its start, one command further |
| Poll.Poller.ProcessUpdates | scripts/poll_commands.py:230-246 | every command is handled, in order; what is sent is `RunReplies` of the batch's commands and the subscriber set ends as their `RunSubs`, both from the state before the loop; the state is saved with the maximum id exactly when it advanced; the day's pair stays the same |
| Poll.Poller.Prewarm | scripts/poll_commands.py:180 | fails exactly when `get_cached_messages` raises; the day's pair and the day's cached messages stay the same |
| Poll.Poller.Respond | scripts/poll_commands.py:200-246 | fetches at offset `last + 1`; sends `RunReplies` of the batch's commands, only to chats that sent them, and leaves the subscriber set at their `RunSubs`; with no updates nothing is sent, handled or saved and the subscribers file is untouched |
| Poll.Poller.PollAndRespond | scripts/poll_commands.py:162-248 | a run fails exactly when the pre-warm or the state load raises, and then sends, handles and saves nothing, leaves the subscribers file alone and keeps the day's pair; otherwise it handles the batch's commands, sends their `RunReplies` from the state before the run, only to chats that sent commands, moves the subscriber set to their `RunSubs`, and saves as `ProcessUpdates` says |

## Left out

- HTTP, the Telegram client, JSON encoding and decoding, and file I/O:
  - Sefaria's answers are the oracle `getText`.
  - Telegram's updates are the `telegram` function.
  - Files are datatypes and maps with an unreadable case.
  - Sending a message is an entry in `Poller.sent`.
- SHA-256 and Python's Mersenne Twister are not modelled. A seed string maps to an arbitrary stream of draws; `randint` and `_randbelow` take one draw each and are reduced modulo the range. Python's rejection sampling is not modelled.
- The thread pool that fetches the two halachot runs the two fetches one after the other. They are independent.
- `date.today()` is a parameter. One run uses one date throughout.
- Speech synthesis, the audio cache and MP3 concatenation are outside the model. A voice reply is one `SendVoice` entry, and whether synthesis is enabled is a constant.
- The poll script's own startup is not modelled:
  - the `telegram` import check;
  - reading the configuration from the environment (both return `False`);
  - `delete_webhook`;
  - the three `get_updates` attempts with their sleeps. The `telegram` function gives the answer after all retries, and `None` stands for three failures.
- A failed `send_message` inside the exception handler of `handle_command` is not modelled.
- Subscribers.Load: every subscribers file that is not a list of integer ids under `subscribers` reads as unreadable (empty). The source differs on these:
  - a top level that is not a JSON object makes `load_subscribers` raise `AttributeError`, and `handle_command` replies with the error text;
  - a `subscribers` value that is a string, an object or a list of non-integers loads without raising, as the set of its characters, keys or elements. For example `{"subscribers": ["a"]}` loads as `{"a"}`, `get_subscriber_count` gives 1, and the next `add_subscriber` raises in `sorted()` once an integer joins the set.
- `int()` on a string in the state file is abstracted as its outcome (`IdText(parsed)`). Floating-point and boolean ids, which `int()` converts without raising, are not modelled.
- `str.lower()` is modelled on the ASCII letters only.
- `strftime("%Y")` is modelled as the year zero-padded to four digits. This agrees with the source for the years 1000 to 9999. For earlier years the output of `strftime` depends on the platform (glibc does not pad), and the model does not follow it. Dates are limited to Python's years 1 to 9999.
- A `he` field that is a nested list or contains `null` is not modelled. It is a string, a list of strings, or missing.
- The module-level caches `_memory_cache`, `_message_cache` and `_STATIC_MESSAGES` are fields of the selector and of `StaticMessages`. The generated static texts are constants fixed by the constructor.
- Formatter.SplitText: requires `maxLen >= 1`. Below 1 the source's loop does not end on most texts; the cases where it does end (an all-space rest, negative indices) are not modelled.
- Formatter.FormatHalachaMessages: requires `available >= 1`, which the source does not check.
- Selector.HalachaSelector.GetDailyPair: requires that the catalog's volumes and stored snapshots are short enough to format, for the same reason. `randint(1, max_siman)` needs `max_siman >= 1`, which the catalog's volumes are required to have.
- Sefaria.SefariaClient.GetRandomHalacha: requires `maxSiman >= 1`, as `randint` does.
- Poll.Poller.PollAndRespond: a run that fails at the state load has already pre-warmed, so the selector's caches may hold a promoted snapshot. The contract states only that the day's pair is unchanged, not the cache contents.
- Commands.StartMessages: `get_daily_pair` never returns `None` in the source, so the "no pair" branch is the exception branch.
- Tts.ChunkText: does not state that the packing is greedy, that is, that each chunk is as long as the next piece allows.
