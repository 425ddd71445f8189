# HacksterBot core, modelled and proved in Dafny

HacksterBot is a Discord bot for a maker community. It moderates messages, with AI
classification, URL checks and progressive mutes. It tracks invites and invite events, welcomes
new members, runs support tickets and FAQ threads, schedules and records meetings, and hosts
blackjack. This project models the rules at the bot's core as Dafny datatypes, functions,
classes and methods, and proves what those rules promise.

The model has one module per source file. A file that updates state in place is a class with
`modifies` clauses; a file of pure rules is functions and lemmas. Discord, the databases, the
web services, the AI agents, the clocks and the file system are never called. What they would
return is a parameter: a boolean for whether a call raised, an `Option` for an answer that may
be missing, or a function for a service queried more than once. Times are integers: seconds,
day numbers, or PCM frames for the recorders. Strings are `seq<char>`, and only ASCII case
folding and ASCII whitespace are modelled.

- `common.dfy` (module `Common`): shared helpers: `Option`, stripping, case folding, splitting and joining, integer printing and parsing, deduplication, filtering
- `meeting_recorder.dfy` (module `MeetingRecorder`): per-user PCM ingestion, presence history and intervals, and the timeline built at stop
- `meeting_recorder_old.dfy` (module `MeetingRecorderOld`): the older tracker, its timeline and the recorder manager's idle watchdog
- `recording_manager.dfy` (module `RecordingPool`): meetings in progress and the bot pool
- `recording_bot.dfy` (module `RecordingBots`): per-channel meeting info and template escapes
- `meeting_utils.dfy` (module `MeetingUtils`): meeting room names and duration texts
- `blackjack.dfy` (module `Blackjack`): cards, hand values, the deck and the game's state machine
- `game_manager.dfy` (module `GameManagement`): active games, per-player statistics and the leaderboard rank
- `mute_ladder.dfy` (module `MuteLadder`): the progressive mute ladder shared by both moderation stores
- `mute_manager.dfy` (module `MuteManagement`): the file-backed mute manager
- `moderation_db.dfy` (module `ModerationSql`): the SQLite moderation store
- `moderation_mongo.dfy` (module `ModerationDocs`): the document moderation store
- `moderation_cog.dfy` (module `ModerationFlow`): the moderation cog's decisions about one message
- `moderation_queue.dfy` (module `ModerationTasks`): the moderation task queue with bounded concurrency and retries
- `moderation_review.dfy` (module `ModerationReview`): reading the second-opinion review of flagged content
- `violation_mapping.dfy` (module `ViolationMapping`): category labels, severities and summaries
- `community_guidelines.dfy` (module `CommunityGuidelines`): the guideline sections cited for categories and the mute reason
- `url_blacklist.dfy` (module `UrlBlacklist`): URL normalisation and the blacklist caches
- `url_safety.dfy` (module `UrlSafety`): the URL safety checker and its rate limit
- `url_unshortener.dfy` (module `UrlUnshortener`): shortened-URL detection and redirect following
- `ai_handler.dfy` (module `AiHandler`): the AI handler's rate limit, reply clean-up, splitting and retries
- `invite_mongo.dfy` (module `InviteStore`): invite records, inviter statistics and event tickets
- `event_manager.dfy` (module `InviteEvents`): invite events and their rewards
- `daily_reporter.dfy` (module `DailyReport`): the daily invite report's numbers and schedule
- `welcome_records.dfy` (module `WelcomeRecords`): the welcomed-member record and the retry filter both stores share
- `welcomed_members_db.dfy` (module `WelcomedMembersSql`): the SQLite welcomed-member store
- `welcomed_members_mongo.dfy` (module `WelcomedMembersDocs`): the document welcomed-member store
- `tickets.dfy` (module `Tickets`): ticket categories, event choice, roles, permissions and mentions
- `faq_helper.dfy` (module `FaqHelper`): FAQ page parsing, question matching and the mark-done button
- `faq.dfy` (module `FaqThreads`): FAQ question threads, their records and resolution
- `notion_faq.dfy` (module `NotionFaq`): reading a Notion FAQ database and picking the answer
- `bridge_time.dfy` (module `BridgeTime`): meeting-time surveys
- `time_parser.dfy` (module `TimeParser`): the meeting time parser and the check of the AI's answer
- `meeting_time_advisor.dfy` (module `MeetingTimeAdvisor`): alternative meeting times from the AI and their shape check
- `meeting_manager.dfy` (module `MeetingManagement`): meeting access, cancellation and the attendee list

Where a source function is wrong as written, the model keeps a member for the code as written,
proves the discrepancy on a concrete input, and uses a corrected member everywhere else (see
"## Findings").


## Model

| member | source | states |
|---|---|---|
| MeetingRecorder.AlignPcm | HacksterBot/modules/recording/services/meeting_recorder.py:113-125 | a packet is kept exactly when its pcm is present and at least one 4-byte frame long; what is kept is a prefix of whole frames that loses less than one frame |
| MeetingRecorder.SilenceAsWrittenIsFourTimesTooLong | HacksterBot/modules/recording/services/meeting_recorder.py:337-338 | the padding as written (`b'\\x00'`, four literal bytes per byte) holds four times as many frames as it stands for and is not zero bytes |
| MeetingRecorder.SilencePcm | HacksterBot/modules/recording/services/meeting_recorder.py:337-338 | intended padding: exactly `frames` frames, every byte zero |
| MeetingRecorder.SilenceSegment | HacksterBot/modules/recording/services/meeting_recorder.py:335-339 | a silence entry spans exactly the given start and end and is well formed |
| MeetingRecorder.Observed | HacksterBot/modules/recording/services/meeting_recorder.py:259-269 | a presence mark is appended only when the state changes; the history is only extended, ends in the observed state and keeps alternating |
| MeetingRecorder.InsertByStart | HacksterBot/modules/recording/services/meeting_recorder.py:306 | inserting into start-ordered segments keeps them ordered, adds one entry, and puts in front either the new segment or the old first one |
| MeetingRecorder.InsertByStartPermutes | HacksterBot/modules/recording/services/meeting_recorder.py:306 | inserting adds exactly the new segment (as a multiset) |
| MeetingRecorder.SortByStart | HacksterBot/modules/recording/services/meeting_recorder.py:306 | `sorted(..., key=start)` gives segments ordered by start |
| MeetingRecorder.SortByStartPermutes | HacksterBot/modules/recording/services/meeting_recorder.py:306 | sorting is a permutation: no segment is added or dropped |
| MeetingRecorder.AllAudioPermutation | HacksterBot/modules/recording/services/meeting_recorder.py:306 | reordering the segments keeps every one a well-formed audio entry |
| MeetingRecorder.Clip | HacksterBot/modules/recording/services/meeting_recorder.py:312-323 | a segment ending after the meeting end is cut to end exactly there with a prefix of its data; one ending in time is unchanged; starts never move |
| MeetingRecorder.ClipAll | HacksterBot/modules/recording/services/meeting_recorder.py:304-323 | segments starting at or after the end are dropped; every kept one starts before and ends by the end |
| MeetingRecorder.ClipAllAudio | HacksterBot/modules/recording/services/meeting_recorder.py:304-323 | filtering keeps every entry well-formed audio |
| MeetingRecorder.ClipAllStartsFrom | HacksterBot/modules/recording/services/meeting_recorder.py:304-323 | filtering never moves a start time earlier |
| MeetingRecorder.ClipAllSorted | HacksterBot/modules/recording/services/meeting_recorder.py:304-323 | filtering keeps the start order |
| MeetingRecorder.FilteredFacts | HacksterBot/modules/recording/services/meeting_recorder.py:304-323 | the filtered segments are well-formed audio, sorted by start, each starting before the end and ending by it |
| MeetingRecorder.MarkInForceAt | HacksterBot/modules/recording/services/meeting_recorder.py:392-416 | in a chronological history, the mark in force at a time between one mark and the next is that mark |
| MeetingRecorder.IntervalsFromBounded | HacksterBot/modules/recording/services/meeting_recorder.py:398-414 | every interval the scan produces is non-empty and ends by the end |
| MeetingRecorder.IntervalsFromTiles | HacksterBot/modules/recording/services/meeting_recorder.py:398-414 | for a chronological history the intervals lie back to back from the current time to the end, and there are none once the end is reached |
| MeetingRecorder.IntervalsFromFlags | HacksterBot/modules/recording/services/meeting_recorder.py:398-414 | each interval carries the flag of the mark in force at its start |
| MeetingRecorder.IntervalsLimitedFacts | HacksterBot/modules/recording/services/meeting_recorder.py:392-416 | for a history opening at the meeting start: intervals are non-empty and end by the end; when chronological they tile the meeting from its start to the end (none when the end is not after the start) and carry the flag in force |
| MeetingRecorder.IntervalsFromIgnore | HacksterBot/modules/recording/services/meeting_recorder.py:402-404 | marks after the end do not change what the scan produces |
| MeetingRecorder.IntervalsIgnoreLaterMarks | HacksterBot/modules/recording/services/meeting_recorder.py:402-404 | presence marks after the end do not change the intervals |
| MeetingRecorder.PresentLayout | HacksterBot/modules/recording/services/meeting_recorder.py:344-369 | a present interval consumes exactly the segments from the index on that end inside it, stopping at the first that does not |
| MeetingRecorder.PresentLayoutAudio | HacksterBot/modules/recording/services/meeting_recorder.py:344-369 | the audio of a present interval is exactly the segments it consumed, in order |
| MeetingRecorder.PresentLayoutBounded | HacksterBot/modules/recording/services/meeting_recorder.py:344-369 | every entry of a present interval is well formed and ends by the interval end |
| MeetingRecorder.PresentLayoutEnd | HacksterBot/modules/recording/services/meeting_recorder.py:361-369 | a present interval that placed a segment, or was entered before its end, is covered up to its end |
| MeetingRecorder.PlaceSegment | HacksterBot/modules/recording/services/meeting_recorder.py:347-358 | placing one segment is its gap silence, the segment, and the rest laid out from the segment's end |
| MeetingRecorder.PresentLayoutStop | HacksterBot/modules/recording/services/meeting_recorder.py:347-369 | when the next segment is missing or ends after the interval, the interval is silence up to its end and nothing is consumed |
| MeetingRecorder.IntervalLayout | HacksterBot/modules/recording/services/meeting_recorder.py:330-369 | an absent interval consumes no segment and gives no audio |
| MeetingRecorder.TimelineFromStep | HacksterBot/modules/recording/services/meeting_recorder.py:330-371 | the timeline from one interval on is that interval's layout followed by the timeline from the next one, entered at its end |
| MeetingRecorder.TimelineFromBounded | HacksterBot/modules/recording/services/meeting_recorder.py:328-377 | every entry from any interval on is well formed and ends by the end |
| MeetingRecorder.TimelineFromAudio | HacksterBot/modules/recording/services/meeting_recorder.py:328-377 | the audio from any interval on is a prefix of the remaining filtered segments, in order |
| MeetingRecorder.TimelineFromEnd | HacksterBot/modules/recording/services/meeting_recorder.py:328-377 | when the remaining intervals tile up to the end, the timeline ends exactly there |
| MeetingRecorder.TimelineFacts | HacksterBot/modules/recording/services/meeting_recorder.py:328-377 | the timeline is well formed and ends by the end; its audio is a prefix of the filtered segments in order; when the intervals tile the meeting it ends exactly at the end |
| MeetingRecorder.TrackerTimelineFacts | HacksterBot/modules/recording/services/meeting_recorder.py:296-390 | a tracker's timeline is bounded by the stop instant, its audio is a prefix of the filtered segments, and with a chronological history and a positive duration it reaches the stop instant |
| MeetingRecorder.UserAudioTracker.constructor | HacksterBot/modules/recording/services/meeting_recorder.py:218-233 | a new tracker holds no audio, has the single mark "present at the meeting start" and its last audio time is the start |
| MeetingRecorder.UserAudioTracker.AddAudioData | HacksterBot/modules/recording/services/meeting_recorder.py:238-257 | chunks under 1 ms change nothing; otherwise exactly one segment ending at timestamp + frames/rate is appended and the last audio time becomes its end; presence is untouched |
| MeetingRecorder.UserAudioTracker.MarkPresent | HacksterBot/modules/recording/services/meeting_recorder.py:259-263 | the history becomes `Observed(old, present)` |
| MeetingRecorder.UserAudioTracker.MarkAbsent | HacksterBot/modules/recording/services/meeting_recorder.py:265-269 | the history becomes `Observed(old, absent)` |
| MeetingRecorder.PresenceIntervalsLimited | HacksterBot/modules/recording/services/meeting_recorder.py:392-416 | the scan of the history, stopping at the first mark after the end, computes exactly `IntervalsLimited`; an empty history is one present interval |
| MeetingRecorder.BuildCompleteTimeline | HacksterBot/modules/recording/services/meeting_recorder.py:296-390 | the timeline is exactly `Timeline` of the start-sorted segments clipped at start + total duration (`Filtered`) and of the presence intervals up to that instant |
| MeetingRecorder.ClipSorted | HacksterBot/modules/recording/services/meeting_recorder.py:306-323 | the filtering loop computes `ClipAll` of the sorted segments |
| MeetingRecorder.AssembleTimeline | HacksterBot/modules/recording/services/meeting_recorder.py:328-377 | the assembly loop keeps entries within the end, takes audio from the filtered segments in order, and when the intervals tile the meeting ends exactly at the end |
| MeetingRecorder.LayOutInterval | HacksterBot/modules/recording/services/meeting_recorder.py:330-369 | an absent interval consumes no audio and is one silence entry; a present one lays out consecutive filtered segments; a non-empty interval is covered up to its end |
| MeetingRecorder.LayOutPresentInterval | HacksterBot/modules/recording/services/meeting_recorder.py:344-369 | the segments laid out are exactly those from the index on that end inside the interval, stopping at the first that does not; the interval is covered up to its end |
| MeetingRecorder.SynchronizedMultiUserRecorder.constructor | HacksterBot/modules/recording/services/meeting_recorder.py:66-94 | a new recorder has no start, no end and no trackers |
| MeetingRecorder.SynchronizedMultiUserRecorder.StartRecording | HacksterBot/modules/recording/services/meeting_recorder.py:100-104 | the start time becomes `now` |
| MeetingRecorder.SynchronizedMultiUserRecorder.TrackerFor | HacksterBot/modules/recording/services/meeting_recorder.py:130-141 | the first packet of an unseen user creates exactly one new tracker; a known user's tracker is reused and nothing else changes |
| MeetingRecorder.SynchronizedMultiUserRecorder.Write | HacksterBot/modules/recording/services/meeting_recorder.py:106-147 | packets before the start or without a whole frame change nothing; otherwise the aligned pcm goes to that user's tracker only and no tracker is removed |
| MeetingRecorder.SynchronizedMultiUserRecorder.Observe | HacksterBot/modules/recording/services/meeting_recorder.py:158-168 | one user is marked present or absent; no other tracker and no audio changes |
| MeetingRecorder.SynchronizedMultiUserRecorder.MonitorPoll | HacksterBot/modules/recording/services/meeting_recorder.py:149-178 | every tracked user in the channel is marked present, every other tracked user absent, audio untouched |
| MeetingRecorder.SynchronizedMultiUserRecorder.StopRecording | HacksterBot/modules/recording/services/meeting_recorder.py:180-199 | the end becomes `now`; there is one timeline per tracker, each built with the same duration `now - start` and so bounded by the same instant |
| MeetingRecorder.LayOutSegments | HacksterBot/modules/recording/services/meeting_recorder.py:345-359 | the inner loop lays out, each after its silence gap, exactly the segments from the index on that end inside the interval, and stops at the first that ends after it |
| MeetingRecorderOld.ClipEnd | HacksterBot/modules/recording/services/meeting_recorder_old.py:430-435 | a segment's end becomes the smaller of its end and the meeting end; start, kind and data are kept |
| MeetingRecorderOld.ClipEnds | HacksterBot/modules/recording/services/meeting_recorder_old.py:421-435 | what survives the filter starts before and ends by the meeting end |
| MeetingRecorderOld.ClipEndsLoop | HacksterBot/modules/recording/services/meeting_recorder_old.py:424-435 | the filtering loop computes `ClipEnds` |
| MeetingRecorderOld.LongGap | HacksterBot/modules/recording/services/meeting_recorder_old.py:468-473 | a gap gets one silence entry spanning it exactly when it is longer than 0.2 s, and no audio |
| MeetingRecorderOld.Cut | HacksterBot/modules/recording/services/meeting_recorder_old.py:476-480 | a segment gives one audio entry, with its whole data, from the later of the two starts to the earlier of the two ends, exactly when it overlaps the interval |
| MeetingRecorderOld.PresentOld | HacksterBot/modules/recording/services/meeting_recorder_old.py:459-483 | the loop over a present interval consumes exactly the segments from the index on that start before the interval end, and stops at the first that does not |
| MeetingRecorderOld.PresentOldAudio | HacksterBot/modules/recording/services/meeting_recorder_old.py:459-483 | the audio of a present interval is the in-interval part of every segment it consumed, in order |
| MeetingRecorderOld.PresentOldOk | HacksterBot/modules/recording/services/meeting_recorder_old.py:458-491 | every entry of a present interval is non-empty and ends by the interval end; audio starts inside the interval, silence is only for gaps over 0.2 s |
| MeetingRecorderOld.GapCutOk | HacksterBot/modules/recording/services/meeting_recorder_old.py:467-480 | the silence and the part placed for one segment are well formed within the interval |
| MeetingRecorderOld.PlaceOld | HacksterBot/modules/recording/services/meeting_recorder_old.py:459-483 | placing one overlapping segment is its gap silence, its part inside the interval, and the rest laid out from the end of that part |
| MeetingRecorderOld.IntervalOld | HacksterBot/modules/recording/services/meeting_recorder_old.py:441-456 | an absent interval consumes no segment and gives at most one silence entry, present exactly when the entry time is before the clipped interval end |
| MeetingRecorderOld.TimelineOldStep | HacksterBot/modules/recording/services/meeting_recorder_old.py:441-494 | the timeline from one interval on is that interval's layout followed by the timeline from the next one, entered at the clipped end |
| MeetingRecorderOld.TimelineOldFromOk | HacksterBot/modules/recording/services/meeting_recorder_old.py:440-501 | every entry from any interval on is non-empty, ends by the meeting end and has zero-byte silence |
| MeetingRecorderOld.TimelineOldOk | HacksterBot/modules/recording/services/meeting_recorder_old.py:440-501 | every entry of the old timeline is non-empty, ends by the meeting end and has zero-byte silence |
| MeetingRecorderOld.IntervalsOldFromNonEmpty | HacksterBot/modules/recording/services/meeting_recorder_old.py:527-535 | every interval the scan produces is non-empty |
| MeetingRecorderOld.IntervalsOldFromTiles | HacksterBot/modules/recording/services/meeting_recorder_old.py:527-535 | for a chronological history the intervals lie back to back from the current time to the later of the last mark and the meeting end, and there are none once that is reached |
| MeetingRecorderOld.IntervalsOldFromFlags | HacksterBot/modules/recording/services/meeting_recorder_old.py:527-535 | each interval carries the flag of the mark in force at its start |
| MeetingRecorderOld.IntervalsOldFacts | HacksterBot/modules/recording/services/meeting_recorder_old.py:517-537 | for a history opening at the meeting start: intervals are non-empty, tile the meeting up to the later of the last mark and the end, and carry the flag in force |
| MeetingRecorderOld.LayOutPresentOld | HacksterBot/modules/recording/services/meeting_recorder_old.py:458-491 | the segment loop and closing silence of a present interval compute exactly `PresentOld`: the entries and the index where the loop stops |
| MeetingRecorderOld.AssembleTimelineOld | HacksterBot/modules/recording/services/meeting_recorder_old.py:440-501 | the assembly loop computes exactly `TimelineOld`, interval by interval, with the final padding |
| MeetingRecorderOld.UserAudioTracker.constructor | HacksterBot/modules/recording/services/meeting_recorder_old.py:272-289 | a new tracker is present, holds no audio and has the single mark "present at the start" |
| MeetingRecorderOld.UserAudioTracker.MarkPresent | HacksterBot/modules/recording/services/meeting_recorder_old.py:345-350 | the flag becomes present and a mark is appended only on an actual change |
| MeetingRecorderOld.UserAudioTracker.MarkAbsent | HacksterBot/modules/recording/services/meeting_recorder_old.py:352-357 | the flag becomes absent and a mark is appended only on an actual change |
| MeetingRecorderOld.UserAudioTracker.AddAudioData | HacksterBot/modules/recording/services/meeting_recorder_old.py:299-343 | empty or sub-frame chunks change nothing; otherwise an absent user is first re-marked present, and the aligned chunk is stored (with last audio time = its start) unless it is under 1 ms |
| MeetingRecorderOld.UserAudioTracker.FillSilenceGaps | HacksterBot/modules/recording/services/meeting_recorder_old.py:359-361 | the last audio time becomes the larger of itself and `now`, so it never decreases |
| MeetingRecorderOld.UserAudioTracker.PresenceIntervals | HacksterBot/modules/recording/services/meeting_recorder_old.py:517-537 | the scan of the history computes exactly `IntervalsOld` of the tracker's history |
| MeetingRecorderOld.UserAudioTracker.BuildCompleteTimeline | HacksterBot/modules/recording/services/meeting_recorder_old.py:407-515 | the timeline is exactly `TimelineOld` of the start-sorted segments clipped at start + total duration and of the presence intervals up to that end; every entry is non-empty, ends by that end, and its silence is zero bytes of its length |
| MeetingRecorderOld.TrailingEmpty | HacksterBot/modules/recording/services/meeting_recorder_old.py:613-627 | the length of the run of empty checks at the end of the sequence: all of them empty, the one before (if any) not |
| MeetingRecorderOld.TrailingStep | HacksterBot/modules/recording/services/meeting_recorder_old.py:621-627 | one more check resets the run to 0 when a human is seen and extends it by one otherwise |
| MeetingRecorderOld.IdleWatchdog | HacksterBot/modules/recording/services/meeting_recorder_old.py:609-636 | the watchdog stops for idleness only when the empty time has reached 300 s, and before that every check kept it below 300 s; otherwise it runs through every check |
| MeetingRecorderOld.IdleStopNeedsThirtyEmptyChecks | HacksterBot/modules/recording/services/meeting_recorder_old.py:613-625 | stopping for idleness takes exactly 30 consecutive empty 10-second checks |
| MeetingRecorderOld.MeetingRecorder.constructor | HacksterBot/modules/recording/services/meeting_recorder_old.py:553-557 | the active-recordings table starts empty |
| MeetingRecorderOld.MeetingRecorder.Status | HacksterBot/modules/recording/services/meeting_recorder_old.py:685-697 | recording (with the stored start and directory) exactly when the channel has an entry |
| MeetingRecorderOld.MeetingRecorder.RecordMeetingAudio | HacksterBot/modules/recording/services/meeting_recorder_old.py:559-607 | a missing channel changes nothing; a failure while starting removes the channel's entry; otherwise the entry is filed and the watchdog decides when to stop |
| MeetingRecorderOld.MeetingRecorder.CleanupRecording | HacksterBot/modules/recording/services/meeting_recorder_old.py:678-683 | removes the channel's entry, after which the status is not recording |
| MeetingRecorderOld.MeetingRecorder.StopRecording | HacksterBot/modules/recording/services/meeting_recorder_old.py:661-676 | True exactly for a channel with an entry; the entry is removed and the status then reports not recording |
| RecordingPool.UsedIds | HacksterBot/modules/recording/services/recording_manager.py:66-72 | every logged-in bot with a recording task on a counted channel has its user id in the busy set |
| RecordingPool.FreeFrom | HacksterBot/modules/recording/services/recording_manager.py:75-78 | exactly the free bots from an index on, in increasing pool order |
| RecordingPool.FreeBots | HacksterBot/modules/recording/services/recording_manager.py:75-78 | a bot is listed exactly when it is free (logged in, ready, not busy), each once, in pool order |
| RecordingPool.UsedIdsInProgressSubset | HacksterBot/modules/recording/services/recording_manager.py:66-72 | counting only in-progress channels gives a subset of the busy ids counted over all channels |
| RecordingPool.FreeForNewRoomIsFreeForScheduling | HacksterBot/modules/recording/services/recording_manager.py:66-78 | a bot free for a new meeting room (any task counts) is also free for scheduling (only in-progress tasks count) |
| RecordingPool.Origin | HacksterBot/modules/recording/services/recording_manager.py:97-102 | the copied info is the first knowing bot's info for the channel, or the empty dict |
| RecordingPool.Step | HacksterBot/modules/recording/services/recording_manager.py:81-121 | one meeting's step keeps the pool's size and uses either no bot or exactly the first free one, popping it |
| RecordingPool.Schedule | HacksterBot/modules/recording/services/recording_manager.py:80-121 | scheduling over the meetings keeps one info table per bot |
| RecordingPool.ScheduleChangesOnlyFreeBots | HacksterBot/modules/recording/services/recording_manager.py:75-93 | bots that were not free are untouched and a free bot receives at most one meeting |
| RecordingPool.StepKeepsTask | HacksterBot/modules/recording/services/recording_manager.py:92-117 | a step keeps every other existing channel entry of every bot |
| RecordingPool.ScheduleSkipsRecordedMeetings | HacksterBot/modules/recording/services/recording_manager.py:83-92 | a meeting some bot already records is left exactly as it was in every bot's info |
| RecordingPool.FirstRunning | HacksterBot/modules/recording/services/recording_manager.py:164-171 | the first bot whose task for the channel is present and not done; none exactly when there is no such bot |
| RecordingPool.RemoveFirst | HacksterBot/modules/recording/services/recording_manager.py:52-53 | `list.remove` drops one occurrence (multiset minus one) and leaves a list without it unchanged |
| RecordingPool.RecordingManager.constructor | HacksterBot/modules/recording/services/recording_manager.py:23-28 | the pool holds the given bots and no meeting is in progress |
| RecordingPool.RecordingManager.FinishMeeting | HacksterBot/modules/recording/services/recording_manager.py:50-54 | removes one occurrence of the channel if present, otherwise nothing changes |
| RecordingPool.RecordingManager.ComputeUsed | HacksterBot/modules/recording/services/recording_manager.py:66-72 | the busy-id loop computes `UsedIds` |
| RecordingPool.RecordingManager.ComputeFree | HacksterBot/modules/recording/services/recording_manager.py:75-78 | the free-bot comprehension computes `FreeBots` |
| RecordingPool.RecordingManager.AssignBotForMeeting | HacksterBot/modules/recording/services/recording_manager.py:123-145 | the first free bot (a task on any channel counts as busy); none exactly when no bot is free |
| RecordingPool.RecordingManager.AnyRecording | HacksterBot/modules/recording/services/recording_manager.py:83-90 | whether some bot has a recording task for the channel |
| RecordingPool.RecordingManager.OriginInfo | HacksterBot/modules/recording/services/recording_manager.py:97-102 | the first knowing bot's info for the channel, or the empty dict |
| RecordingPool.RecordingManager.ScheduleBots | HacksterBot/modules/recording/services/recording_manager.py:61-121 | the new infos are `Schedule` over the meetings in progress, handing out the free bots in order |
| RecordingPool.RecordingManager.HandleNewMeeting | HacksterBot/modules/recording/services/recording_manager.py:56-59 | the channel is appended to the meetings in progress before the bots are rescheduled |
| RecordingPool.RecordingManager.StopRecording | HacksterBot/modules/recording/services/recording_manager.py:161-174 | True exactly when some bot has an unfinished task for the channel; only the first such task is cancelled, otherwise nothing changes |
| RecordingPool.RecordingManager.ScheduleMeeting | HacksterBot/modules/recording/services/recording_manager.py:82-121 | one meeting of the assignment loop: the bots' new infos and the remaining free list are exactly one `Step` of `Schedule` from the old ones |
| RecordingBots.NewMeeting | HacksterBot/modules/recording/services/recording_bot.py:116-126 | a new meeting's info has the initiator as the only active and all-time participant, joined now with status true, no leave times and no recording task |
| RecordingBots.Joined | HacksterBot/modules/recording/services/recording_bot.py:142-161 | a joining member becomes active and an all-time participant with join time now and no leave time; start time and thread are kept |
| RecordingBots.Left | HacksterBot/modules/recording/services/recording_bot.py:183-186 | only an active member is removed from the active set (all-time participants kept) and gets a leave time; anyone else leaves the roster unchanged |
| RecordingBots.JoinedKeepsRosterOk | HacksterBot/modules/recording/services/recording_bot.py:142-161 | joining keeps active ⊆ all and the recording status true exactly for active members |
| RecordingBots.LeftKeepsRosterOk | HacksterBot/modules/recording/services/recording_bot.py:183-186 | leaving keeps active ⊆ all and the recording status true exactly for active members |
| RecordingBots.ProcessTemplate | HacksterBot/modules/recording/services/recording_bot.py:35-38 | replacing each backslash-n pair by a newline never lengthens the template |
| RecordingBots.ProcessTemplatePlain | HacksterBot/modules/recording/services/recording_bot.py:35-38 | a template without a backslash-n pair is unchanged |
| RecordingBots.ProcessEscapeRoundTrip | HacksterBot/modules/recording/services/recording_bot.py:35-38 | for text without backslashes, processing undoes writing newlines as backslash-n |
| RecordingBots.RecordingBot.constructor | HacksterBot/modules/recording/services/recording_bot.py:23-33 | a new bot has no meeting info and no forum threads |
| RecordingBots.RecordingBot.CreateMeetingRoom | HacksterBot/modules/recording/services/recording_bot.py:72-135 | on success the new meeting's info and its thread (if any) are stored; a failure changes nothing |
| RecordingBots.RecordingBot.HandleUserJoin | HacksterBot/modules/recording/services/recording_bot.py:137-161 | the channel's roster becomes `Joined`; other channels are untouched |
| RecordingBots.RecordingBot.HandleUserLeave | HacksterBot/modules/recording/services/recording_bot.py:178-212 | the channel's roster becomes `Left`; the delayed close starts exactly when no human is left |
| RecordingBots.RecordingBot.CloseMeetingAfterDelay | HacksterBot/modules/recording/services/recording_bot.py:214-285 | the meeting is closed only when the guild still has the channel, no human is in it and it has info; closing removes both the channel and its thread entries, otherwise nothing changes |
| MeetingUtils.Decompose | HacksterBot/modules/recording/services/meeting_utils.py:17-19 | hours, minutes and seconds recombine to the input, with minutes and seconds in 0..59 (floor division, so also for negative input) |
| MeetingUtils.FormatDurationRoundTrip | HacksterBot/modules/recording/services/meeting_utils.py:15-26 | the text of a non-negative duration reads back as the same number of seconds |
| MeetingUtils.FormatDurationUnits | HacksterBot/modules/recording/services/meeting_utils.py:21-26 | hours are shown exactly from one hour on, minutes exactly from one minute on, seconds always |
| MeetingUtils.Pad2 | HacksterBot/modules/recording/services/meeting_utils.py:12 | a two-digit zero-padded field reads back as its value |
| MeetingUtils.MeetingRoomName | HacksterBot/modules/recording/services/meeting_utils.py:9-12 | `Meeting-MMDD-HHMM`: 17 characters, digits in the fields, from which month, day, hour and minute read back |
| MeetingUtils.RenderRoundTrip | HacksterBot/modules/recording/services/meeting_utils.py:21-26 | each of the three shapes of the text reads back as hours·3600 + minutes·60 + seconds |
| Blackjack.StandardDeck | HacksterBot/modules/blackjack/game.py:120-122 | one standard deck has 52 cards, every suit with every rank |
| Blackjack.FullDeck | HacksterBot/modules/blackjack/game.py:116-122 | `reset` lays out 52 cards per deck |
| Blackjack.Downgraded | HacksterBot/modules/blackjack/game.py:69-72 | the ace adjustment turns some number k ≤ aces of aces into 1, lowering the total by 10k |
| Blackjack.GetValue | HacksterBot/modules/blackjack/game.py:59-74 | the summing loop and the adjustment loop compute the hand's value |
| Blackjack.AdjustedIsBest | HacksterBot/modules/blackjack/game.py:69-72 | when some choice of aces as 1 keeps the hand within 21, the value is the largest such total and within 21; otherwise every ace has been turned into 1 |
| Blackjack.ValueAtLeastCardCount | HacksterBot/modules/blackjack/game.py:59-74 | every card counts at least 1, so a hand is worth at least its number of cards |
| Blackjack.TwoCardsNotBust | HacksterBot/modules/blackjack/game.py:59-82 | no two-card hand is bust (two aces make 12) |
| Blackjack.Winner | HacksterBot/modules/blackjack/game.py:233-260 | a player win means neither is bust and the player is higher (and the mirror for the dealer); the player's bust is the result exactly when there is no blackjack and the player is bust |
| Blackjack.WinnerSymmetric | HacksterBot/modules/blackjack/game.py:242-260 | swapping the hands mirrors the result, except that both hands bust is always the player's bust |
| Blackjack.Deck.constructor | HacksterBot/modules/blackjack/game.py:110-114 | a new deck holds the shuffled order of its 52 × decks cards |
| Blackjack.Deck.Reset | HacksterBot/modules/blackjack/game.py:116-123 | after `reset` the deck is the shuffled order of 52 × decks cards |
| Blackjack.Deck.DealCard | HacksterBot/modules/blackjack/game.py:129-133 | an empty deck gives nothing and is unchanged; otherwise the last card is removed and returned, one fewer remains and no card is lost |
| Blackjack.DealtFour | HacksterBot/modules/blackjack/game.py:179-187 | taking four cards off the end leaves the prefix and conserves the cards |
| Blackjack.DealOpening | HacksterBot/modules/blackjack/game.py:179-187 | player, player, dealer, dealer, each from the end of the deck |
| Blackjack.OpeningOutcome | HacksterBot/modules/blackjack/game.py:189-191 | the game is over at once exactly when either hand is a blackjack, and then decided by `Winner`; otherwise the player is to act with no result |
| Blackjack.PlayerCanDraw | HacksterBot/modules/blackjack/game.py:193-203 | while the player may act the deck still has a card and the player holds at most 21 cards |
| Blackjack.BlackjackGame.constructor | HacksterBot/modules/blackjack/game.py:161-191 | a new game deals the last four cards of the shuffled order, and is over exactly when either opening hand is a blackjack, with the winner decided |
| Blackjack.BlackjackGame.Hit | HacksterBot/modules/blackjack/game.py:193-209 | refused (nothing changes) outside the player's turn; otherwise the player takes the deck's last card and a bust ends the game as the player's bust |
| Blackjack.BlackjackGame.Stand | HacksterBot/modules/blackjack/game.py:211-223 | refused outside the player's turn; otherwise the dealer plays out and the game ends with `Winner` of the final hands |
| Blackjack.BlackjackGame.DealerPlay | HacksterBot/modules/blackjack/game.py:225-231 | the dealer draws from the end of the deck while under 17 and stops at 17 or more; every intermediate hand was under 17; no card is lost |
| Blackjack.BlackjackGame.CanHitIffCanStand | HacksterBot/modules/blackjack/game.py:262-268 | in a valid game hitting and standing are allowed in exactly the same states (the bust check of `can_hit` never matters) |
| GameManagement.NewStats | HacksterBot/modules/blackjack/services/game_manager.py:148-152 | a record created on a first game has every counter at zero |
| GameManagement.ScoreDelta | HacksterBot/modules/blackjack/services/game_manager.py:159-171 | 150 exactly for a player blackjack, 100 exactly for another win (player win or dealer bust), 50 exactly for a tie, 0 exactly otherwise |
| GameManagement.Recorded | HacksterBot/modules/blackjack/services/game_manager.py:154-182 | one more game; score, wins and ties grow by the result's share; the win rate is wins / games; a win extends the streak and lifts the best streak, anything else resets the streak; last played is now |
| GameManagement.RecordedKeepsStatsOk | HacksterBot/modules/blackjack/services/game_manager.py:154-182 | the update keeps the counters consistent (wins + ties ≤ games, streak ≤ best streak, win rate matching) |
| GameManagement.WinRateBounds | HacksterBot/modules/blackjack/services/game_manager.py:173-175 | a consistent record's win rate lies between 0 and 1 |
| GameManagement.Rank | HacksterBot/modules/blackjack/services/game_manager.py:391-414 | the rank is at least 1; it is one more than the number of players with a game and a strictly higher score, or 999 when the query fails |
| GameManagement.HigherScorers | HacksterBot/modules/blackjack/services/game_manager.py:404-408 | exactly the players with at least one game and a strictly higher total score |
| GameManagement.RankMonotone | HacksterBot/modules/blackjack/services/game_manager.py:391-410 | a higher score never ranks worse |
| GameManagement.RankBounds | HacksterBot/modules/blackjack/services/game_manager.py:391-410 | the rank lies between 1 and one more than the number of players, and is 1 exactly when nobody who has played scores higher |
| GameManagement.GameManager.constructor | HacksterBot/modules/blackjack/services/game_manager.py:26-42 | no game is active |
| GameManagement.GameManager.ApplyResult | HacksterBot/modules/blackjack/services/game_manager.py:141-192 | the player's record becomes `Recorded` of the old one and the game leaves the active table |
| GameManagement.GameManager.RecordGameResultAsWritten | HacksterBot/modules/blackjack/services/game_manager.py:134-192 | as written the record is still saved and the game removed, but the outcome is always the error log line, because the awaited `save()` result is not awaitable |
| GameManagement.GameManager.RecordGameResult | HacksterBot/modules/blackjack/services/game_manager.py:134-192 | the intended version: the record is updated and saved, the success line logged and the game removed |
| GameManagement.GameManager.StartGame | HacksterBot/modules/blackjack/services/game_manager.py:67-132 | refused, changing nothing, when the user already has a game; otherwise a fresh game is filed for the user, and one that ends at once is recorded and removed |
| GameManagement.GameManager.CleanupGame | HacksterBot/modules/blackjack/services/game_manager.py:355-364 | the user's game, if any, is dropped and nothing else changes |
| GameManagement.GameManager.ResetUserGame | HacksterBot/modules/blackjack/services/game_manager.py:366-389 | the user's game is dropped and the answer says exactly whether there was one |
| GameManagement.GameManager.Close | HacksterBot/modules/blackjack/services/game_manager.py:56-64 | every active game is dropped |
| GameManagement.GameManager.FileNewGame | HacksterBot/modules/blackjack/services/game_manager.py:95-118 | a game still running is filed under its player and the statistics stay; a game over at once is not filed, and its result is added to the player's statistics |
| MuteLadder.MaxListedCountIsMaxKey | HacksterBot/config/settings.py:27-33 | 5 is a key of the configured table and no key is larger |
| MuteLadder.CalculateMuteDurationShape | HacksterBot/modules/moderation/services/moderation_db.py:292-311 | no mute exactly for counts of zero or below; every mute lasts 5 minutes to 28 days; counts above 5 get 28 days; the ladder never goes down |
| MuteLadder.TruncDiv60 | HacksterBot/modules/moderation/services/moderation_db.py:192 | `int(x / 60)` truncates toward zero: floor division for non-negative x, the negated quotient of -x otherwise |
| MuteLadder.Window | HacksterBot/modules/moderation/services/moderation_db.py:184-193 | minutes and expiry are stored together or not at all |
| MuteLadder.WindowFollowsLadder | HacksterBot/modules/moderation/services/moderation_db.py:184-193 | without a given duration a positive count gets exactly the ladder's minutes and an expiry that many minutes after now; a count of zero or below gets neither |
| MuteManagement.MuteDuration | HacksterBot/modules/moderation/services/mute_manager.py:122-137 | 0 for counts of zero or below; otherwise the list entry for the count, the last entry from the fifth offence on |
| MuteManagement.MuteDurationMonotone | HacksterBot/modules/moderation/services/mute_manager.py:33-39 | the list never goes down and tops out at 28 days |
| MuteManagement.AgreesWithLadder | HacksterBot/modules/moderation/services/mute_manager.py:33-39 | the file-backed list gives the same minutes as the configured table for every count from one on |
| MuteManagement.WarningsByOffence | HacksterBot/modules/moderation/services/mute_manager.py:284-298 | the "next offence" warning is shown exactly after offences 1, 2 and 4, and the final warning exactly from offence 5 |
| MuteManagement.FormatMinutesReadsBack | HacksterBot/modules/moderation/services/mute_manager.py:317-334 | the duration text reads back as the same minutes below a day; from a day on it reads back as the minutes rounded down to whole hours |
| MuteManagement.FormatBelowDayReadsBack | HacksterBot/modules/moderation/services/mute_manager.py:319-327 | below a day the text is minutes, or hours with the leftover minutes, and reads back exactly |
| MuteManagement.FormatFromDayReadsBack | HacksterBot/modules/moderation/services/mute_manager.py:328-334 | from a day on the text is days with the leftover whole hours |
| MuteManagement.KeyInjective | HacksterBot/modules/moderation/services/mute_manager.py:84 | different (guild, user) pairs never share a `guild:user` history key |
| MuteManagement.StoredContent | HacksterBot/modules/moderation/services/mute_manager.py:110 | the stored content is at most 500 characters and is the content itself when it fits |
| MuteManagement.MuteManager.constructor | HacksterBot/modules/moderation/services/mute_manager.py:21-49 | the history is the saved one (empty when unreadable) and no mute is tracked |
| MuteManagement.MuteManager.AddViolation | HacksterBot/modules/moderation/services/mute_manager.py:87-120 | one record is appended under the user's key; the result is the new count, one more than before; no other history changes |
| MuteManagement.MuteManager.MuteUser | HacksterBot/modules/moderation/services/mute_manager.py:139-196 | the violation is always recorded: exactly one record (now, the categories, the stored content) is appended under the user's key, the key set gains only that key and every other history is unchanged, so the count grows by one; the duration is never zero; a refused timeout leaves the tracked mutes unchanged, otherwise the user is tracked with an expiry of now plus the ladder's minutes |
| MuteManagement.MuteManager.CheckExpiredMutes | HacksterBot/modules/moderation/services/mute_manager.py:336-361 | exactly the tracked mutes expiring at or before now are dropped; the rest are unchanged |
| MuteManagement.MuteManager.RemoveMute | HacksterBot/modules/moderation/services/mute_manager.py:363-389 | success exactly when the timeout call is accepted, and then the tracking entry is dropped; otherwise nothing changes |
| MuteManagement.MuteManager.ClearUserViolations | HacksterBot/modules/moderation/services/mute_manager.py:399-416 | True exactly when the key was there; the key is removed and the user's count is then 0 |
| ModerationSql.CategoriesColumn | HacksterBot/modules/moderation/services/moderation_db.py:129 | the column is NULL exactly for an empty category list |
| ModerationSql.CategoriesColumnSplits | HacksterBot/modules/moderation/services/moderation_db.py:129 | a stored column splits back into the category names when no name holds a comma |
| ModerationSql.DeactivateTwice | HacksterBot/modules/moderation/services/moderation_db.py:248-252 | deactivating one id after a set of ids is deactivating both |
| ModerationSql.DeactivateExpiredIsSweep | HacksterBot/modules/moderation/services/moderation_db.py:274-285 | with distinct ids, deactivating the ids of the selected expired rows is exactly the sweep |
| ModerationSql.SweptHasNoExpired | HacksterBot/modules/moderation/services/moderation_db.py:262-290 | after a sweep no expired active mute is left, so a second sweep changes nothing |
| ModerationSql.ModerationDb.constructor | HacksterBot/modules/moderation/services/moderation_db.py:20-100 | a new database has empty tables and ids starting at 1 |
| ModerationSql.ModerationDb.ViolationCount | HacksterBot/modules/moderation/services/moderation_db.py:143-164 | the count is 0 exactly when no violation row is for that user in that guild |
| ModerationSql.ModerationDb.AddViolation | HacksterBot/modules/moderation/services/moderation_db.py:102-141 | returns the next id; appends one violation row; replaces the user row (username and first-seen back to defaults); the user's count grows by one and no other user's changes |
| ModerationSql.ModerationDb.AddMute | HacksterBot/modules/moderation/services/moderation_db.py:166-205 | returns the next id; appends one active mute row started now whose minutes and expiry are `Window` of the count and duration; nothing else changes |
| ModerationSql.ModerationDb.GetActiveMute | HacksterBot/modules/moderation/services/moderation_db.py:207-232 | None exactly when the user has no active mute in the guild; otherwise an active one with the latest start |
| ModerationSql.ModerationDb.DeactivateMute | HacksterBot/modules/moderation/services/moderation_db.py:234-260 | True exactly when a row has the id; that row (even an inactive one) is made inactive at now and nothing else changes |
| ModerationSql.ModerationDb.DeactivateEach | HacksterBot/modules/moderation/services/moderation_db.py:284-285 | the loop deactivates exactly the ids of the given rows |
| ModerationSql.ModerationDb.CheckAndUpdateExpiredMutes | HacksterBot/modules/moderation/services/moderation_db.py:262-290 | the result is exactly the expired active mutes in table order, as they were before; the table becomes the sweep |
| ModerationDocs.Touched | HacksterBot/modules/moderation/services/moderation_mongo.py:49-57 | the user's record exists afterwards with the violation time set; an existing record keeps its other fields; every other record is unchanged |
| ModerationDocs.FirstActive | HacksterBot/modules/moderation/services/moderation_mongo.py:178-182 | None exactly when no active mute is for the user and guild; otherwise the index of the first such mute |
| ModerationDocs.SweptClosesExpired | HacksterBot/modules/moderation/services/moderation_mongo.py:239-265 | after the sweep no expired active mute is left, each expired one is closed at now, and a second sweep changes nothing |
| ModerationDocs.ModerationStore.constructor | HacksterBot/modules/moderation/services/moderation_mongo.py:21-28 | a new store holds no documents |
| ModerationDocs.ModerationStore.ViolationCount | HacksterBot/modules/moderation/services/moderation_mongo.py:76-92 | the count is 0 exactly when no violation is for that user in that guild |
| ModerationDocs.ModerationStore.AddViolation | HacksterBot/modules/moderation/services/moderation_mongo.py:31-74 | returns a new id; the user record is created or refreshed; one violation document is appended; the user's count grows by one |
| ModerationDocs.ModerationStore.AddMute | HacksterBot/modules/moderation/services/moderation_mongo.py:124-166 | returns a new id and appends one active mute whose minutes and expiry follow `Window` of the count and duration; nothing else changes |
| ModerationDocs.ModerationStore.GetActiveMute | HacksterBot/modules/moderation/services/moderation_mongo.py:168-199 | None exactly when the user has no active mute in the guild; otherwise an active mute of theirs |
| ModerationDocs.ModerationStore.DeactivateMute | HacksterBot/modules/moderation/services/moderation_mongo.py:201-229 | True exactly when the user has an active mute in the guild; then the first one is closed at now and no other document changes |
| ModerationDocs.ModerationStore.CheckAndUpdateExpiredMutes | HacksterBot/modules/moderation/services/moderation_mongo.py:231-269 | the result is exactly the expired active mutes in document order, as they were before; the mutes become the sweep |
| ModerationDocs.ModerationStore.CategoryCounts | HacksterBot/modules/moderation/services/moderation_mongo.py:325-328 | every category occurring in the window is a key, and its count is its number of occurrences across the window's violations |
| ModerationDocs.ModerationStore.GetModerationStatistics | HacksterBot/modules/moderation/services/moderation_mongo.py:290-340 | the totals count the guild's violations and mutes since the cutoff and its active mutes; the category tally is that of the windowed violations; the period is the given days |
| ModerationDocs.ModerationStore.CleanupOldViolations | HacksterBot/modules/moderation/services/moderation_mongo.py:342-364 | the violations before the cutoff are deleted and counted; the kept ones stay in order; kept plus deleted is the old total |
| ModerationDocs.CountSplit | HacksterBot/modules/moderation/services/moderation_mongo.py:353-357 | every violation is either before the cutoff or not, so the two counts add up to the whole |
| ModerationFlow.AppendNew | HacksterBot/modules/moderation/__init__.py:363-366 | the append loop guarded by a membership check adds exactly the items not already present, first occurrence kept |
| ModerationFlow.CollectCategories | HacksterBot/modules/moderation/__init__.py:358-382 | the collected categories are the deduplicated candidates: lowered URL threat types, then flagged text categories, then flagged image categories |
| ModerationFlow.ViolationCategoriesSpec | HacksterBot/modules/moderation/__init__.py:358-382 | the categories hold no repeats and exactly the candidates; they start with the deduplicated lowered threat types; with safe URLs they are exactly the flagged text and image categories |
| ModerationFlow.UnsafeUrls | HacksterBot/modules/moderation/__init__.py:263 | a URL is listed exactly when some result for it is unsafe, in result order |
| ModerationFlow.AggregateUrlResults | HacksterBot/modules/moderation/__init__.py:261-291 | the unsafe URLs; the union of the unsafe results' threat types; the largest unsafe severity (0 when none); reasons None exactly when no unsafe result gives one, otherwise exactly the reasons given |
| ModerationFlow.ReviewResult | HacksterBot/modules/moderation/__init__.py:404-434 | a returned verdict is kept; a failed review is a violation exactly when three or more categories were flagged, and nothing otherwise; no review gives nothing |
| ModerationFlow.OverrideForUnsafeUrl | HacksterBot/modules/moderation/__init__.py:436-448 | safe URLs leave the review unchanged; with unsafe URLs the result is always a violation, a violation verdict is kept, and a cleared verdict is turned into one that ends with its original reason and carries the URL-safety tag |
| ModerationFlow.ModerateSpec | HacksterBot/modules/moderation/__init__.py:346-455 | a processed message was flagged or had unsafe URLs and is deleted with its categories; unsafe URLs always give the unsafe-link verdict without review; an unflagged message with safe URLs is ignored, as is one the review clears |
| ModerationFlow.TrackStep | HacksterBot/modules/moderation/__init__.py:543-561 | the user is a recent violator exactly when tracked with an expiry still ahead; then nothing changes; otherwise they are tracked until now plus 24 hours; other users keep their entries |
| ModerationFlow.TrackWindow | HacksterBot/modules/moderation/__init__.py:559-561 | a user just tracked is a recent violator at a later time exactly when it is under 24 hours later |
| ModerationFlow.Pruned | HacksterBot/modules/moderation/__init__.py:601-606 | up to 1000 entries nothing is pruned; above it exactly the entries expiring before now go; kept entries are unchanged |
| ModerationFlow.PruneKeepsDecisions | HacksterBot/modules/moderation/__init__.py:601-606 | pruning at now changes no recent-violator decision taken at a later time |
| ModerationFlow.ViolationTracker.constructor | HacksterBot/modules/moderation/__init__.py:543-544 | tracking starts empty |
| ModerationFlow.ViolationTracker.CheckAndTrack | HacksterBot/modules/moderation/__init__.py:546-561 | the answer and the new table are those of `TrackStep` |
| ModerationFlow.ViolationTracker.PruneIfLarge | HacksterBot/modules/moderation/__init__.py:601-606 | the new table is the pruned old one |
| ModerationFlow.DurationPartsSpec | HacksterBot/modules/moderation/__init__.py:648-668 | days exactly from one day up, hours from one hour to under a day, minutes below; the amount is the whole number of units held |
| ModerationFlow.DurationTextReadsBack | HacksterBot/modules/moderation/__init__.py:648-668 | the duration text splits on its space into the amount and the unit word |
| ModerationFlow.LadderTexts | HacksterBot/modules/moderation/__init__.py:671-686 | every count from one on has a mute and a next mute, so the next-violation warning always shows; the ladder's mutes read 5 分鐘, 12 小時, 7 天 and 28 天 |
| ModerationFlow.NoticeLinesSpec | HacksterBot/modules/moderation/__init__.py:722-753 | at most the first two categories are shown, each as its display text; more than two add a third line from which the total count reads back |
| ModerationTasks.NewTask | HacksterBot/modules/moderation/services/moderation_queue.py:24-40 | a new task is pending, created now, with no retries, start, completion or error |
| ModerationTasks.Slots | HacksterBot/modules/moderation/services/moderation_queue.py:125-131 | the number started never exceeds the queue nor the free slots; it is the smaller of the two when slots are free and 0 otherwise |
| ModerationTasks.AfterFailure | HacksterBot/modules/moderation/services/moderation_queue.py:166-180 | a failure adds one retry and records the error; the task is re-queued as pending exactly when its retries stay below the maximum, and is failed otherwise |
| ModerationTasks.RetryBound | HacksterBot/modules/moderation/services/moderation_queue.py:166-180 | after k failures a task has k more retries, and the next failure re-queues it exactly when the total stays below the maximum, so a task runs at most max(maxRetries, 1) times |
| ModerationTasks.ModerationQueue.constructor | HacksterBot/modules/moderation/services/moderation_queue.py:49-77 | a new queue is stopped and empty, with the given concurrency and retry limits, and satisfies the queue invariant |
| ModerationTasks.ModerationQueue.Start | HacksterBot/modules/moderation/services/moderation_queue.py:79-86 | the queue runs and no task moves |
| ModerationTasks.ModerationQueue.Stop | HacksterBot/modules/moderation/services/moderation_queue.py:196-201 | the queue stops and no task moves |
| ModerationTasks.ModerationQueue.AddTask | HacksterBot/modules/moderation/services/moderation_queue.py:88-115 | a running queue gains one new pending task at its end; a stopped queue ignores the call; nothing else changes |
| ModerationTasks.ModerationQueue.StartFront | HacksterBot/modules/moderation/services/moderation_queue.py:132-138 | the front task is taken off the queue and stored under its id as processing with `startedAt` now, replacing any entry with that id; every other entry keeps its value |
| ModerationTasks.ModerationQueue.Dispatch | HacksterBot/modules/moderation/services/moderation_queue.py:117-144 | a running queue starts exactly its first `Slots` tasks, in order; a stopped one starts none; the processing table is `StartedAll` of the old table and those tasks (each stored as processing with `startedAt` now, a reused id overwritten); the concurrency bound and status filing are kept |
| ModerationTasks.ModerationQueue.Complete | HacksterBot/modules/moderation/services/moderation_queue.py:146-160 | the task is filed as completed at now and leaves processing; the queue and failed tasks are unchanged |
| ModerationTasks.ModerationQueue.Fail | HacksterBot/modules/moderation/services/moderation_queue.py:166-183 | the task leaves processing and, as `AfterFailure` decides, is appended to the queue as pending or filed as failed; the invariant is kept |
| ModerationReview.RulesFrom | HacksterBot/modules/moderation/agents/moderation_review.py:249-253 | every captured rule number starts and ends with a digit and holds only digits, dots and dashes, and some 規則 occurs in the text when any is captured |
| ModerationReview.RuleCitationExample | HacksterBot/modules/moderation/agents/moderation_review.py:250-252 | a cited range such as 規則 2.1-2.8 is read whole |
| ModerationReview.StripPair | HacksterBot/modules/moderation/agents/moderation_review.py:209-216 | a text not wrapped in the pair is unchanged; a wrapped one loses exactly the outer pair |
| ModerationReview.StripPairUnwraps | HacksterBot/modules/moderation/agents/moderation_review.py:209-216 | wrapping a text in a pair and taking the pair off gives the text back |
| ModerationReview.CleanReplyUnquoted | HacksterBot/modules/moderation/agents/moderation_review.py:205-222 | the cleaned reply is never longer than the trimmed one, and equals it when it does not start with a quote |
| ModerationReview.CleanReplyFullWidth | HacksterBot/modules/moderation/agents/moderation_review.py:215-216 | a reply in full-width quotes is read without them |
| ModerationReview.CapReason | HacksterBot/modules/moderation/agents/moderation_review.py:296-297 | a reason of at most 1000 characters is kept; a longer one becomes exactly 1000, its first 997 characters kept |
| ModerationReview.ProcessResponseSpec | HacksterBot/modules/moderation/agents/moderation_review.py:234-304 | an empty reply is the conservative violation; otherwise a violation exactly when no false-positive mark occurs and the reply says "violation:" or has no leniency word; cited rules are kept, else the defaults follow the verdict; reason and stored reply are bounded and the stored reply is a prefix of the reply |
| ModerationReview.FalsePositiveReason | HacksterBot/modules/moderation/agents/moderation_review.py:256-262 | with the "false_positive:" prefix the verdict is cleared and the reason is what follows the first prefix, trimmed |
| ModerationReview.ReviewFallback | HacksterBot/modules/moderation/agents/moderation_review.py:140-167 | the primary agent's text decides when it has one; the backup is asked only otherwise; with no text from either the verdict is the conservative violation citing rules 2.1-2.8 |
| ModerationTasks.ModerationQueue.StartFronts | HacksterBot/modules/moderation/services/moderation_queue.py:131-138 | starting n tasks takes exactly the first n off the queue, in order, and leaves the processing table equal to `StartedAll` of the old table and those n tasks |
| ModerationTasks.StartedAllKeys | HacksterBot/modules/moderation/services/moderation_queue.py:131-135 | starting tasks adds exactly their ids to the processing table's keys |
| ModerationTasks.StartedAllOutside | HacksterBot/modules/moderation/services/moderation_queue.py:131-135 | an entry whose id no started task carries keeps its value |
| ModerationTasks.StartedAllLatest | HacksterBot/modules/moderation/services/moderation_queue.py:131-135 | a started task whose id no later started task reuses is stored as itself with status processing and `startedAt` now |
| ViolationMapping.ChineseCategoryDefault | HacksterBot/modules/moderation/services/violation_mapping.py:116-127 | a category is shown as itself exactly when the table has no label for it |
| ViolationMapping.SeverityRange | HacksterBot/modules/moderation/services/violation_mapping.py:129-140 | every severity lies between 1 and 5, and an unmapped category gets 1 |
| ViolationMapping.DescriptionDefault | HacksterBot/modules/moderation/services/violation_mapping.py:142-166 | the Chinese description is the description, and the unknown text is returned exactly for unmapped categories |
| ViolationMapping.Labels | HacksterBot/modules/moderation/services/violation_mapping.py:181 | one label per category, in order, each the category's Chinese label |
| ViolationMapping.FormatCategoriesReadsBack | HacksterBot/modules/moderation/services/violation_mapping.py:168-183 | no categories read "無"; otherwise the text splits on "、" back into the labels in order, when no label holds the separator |
| ViolationMapping.SummaryFacts | HacksterBot/modules/moderation/services/violation_mapping.py:185-214 | the summary's text is the formatter's, the labels are in order, the total is the number of categories, the high-severity count counts severities of 4 or more, the maximum is attained and lies in 1 to 5; all zero for no categories |
| CommunityGuidelines.AllSectionsSorted | HacksterBot/modules/moderation/services/community_guidelines.py:67-79 | the sections the table can cite, listed in Python's string order |
| CommunityGuidelines.TableCitesKnownSection | HacksterBot/modules/moderation/services/community_guidelines.py:67-79 | every section the table cites is one of the listed sections |
| CommunityGuidelines.GuidelinesForSorted | HacksterBot/modules/moderation/services/community_guidelines.py:81-86 | the result is strictly sorted by Python's string order, so no section appears twice |
| CommunityGuidelines.GuidelinesForMembers | HacksterBot/modules/moderation/services/community_guidelines.py:81-86 | the result holds exactly the sections cited by the known categories in the list |
| CommunityGuidelines.GuidelinesForUnknown | HacksterBot/modules/moderation/services/community_guidelines.py:82-84 | a list with no known category gives no section |
| CommunityGuidelines.GuidelinesTextShape | HacksterBot/modules/moderation/services/community_guidelines.py:100-101 | the text is the bare rule text exactly when no section is cited, and otherwise the rule text, a space and the sections |
| CommunityGuidelines.OrdinalReadsBack | HacksterBot/modules/moderation/services/community_guidelines.py:103-111 | outside the five named ordinals the count reads back from between 第 and 次 |
| CommunityGuidelines.OrdinalMiddle | HacksterBot/modules/moderation/services/community_guidelines.py:103-111 | the text between 第 and 次 reads as a number exactly outside the five named ordinals |
| CommunityGuidelines.OrdinalInjective | HacksterBot/modules/moderation/services/community_guidelines.py:103-111 | different counts get different ordinals |
| CommunityGuidelines.FormatMuteReasonShape | HacksterBot/modules/moderation/services/community_guidelines.py:89-112 | the reason starts with the ordinal, "違規 - " and the guideline text |
| CommunityGuidelines.MuteReasonNamesCount | HacksterBot/modules/moderation/services/community_guidelines.py:89-112 | two equal reasons were given for the same violation count |
| UrlBlacklist.SplitScheme | HacksterBot/modules/moderation/services/url_blacklist.py:100 | the scheme `urlparse` takes off is empty or a lower-case run of scheme characters starting with a letter, followed in the input by ':' |
| UrlBlacklist.SplitNetloc | HacksterBot/modules/moderation/services/url_blacklist.py:100 | after "//" the authority runs up to the first '/', '?' or '#'; without "//" there is none |
| UrlBlacklist.SplitTail | HacksterBot/modules/moderation/services/url_blacklist.py:100 | path, params and query hold no '#', path and params no '?', params no '/', all made of the input's characters |
| UrlBlacklist.ParseFacts | HacksterBot/modules/moderation/services/url_blacklist.py:100 | every successful parse is well split and its parts are made of the input's characters |
| UrlBlacklist.DropWww | HacksterBot/modules/moderation/services/url_blacklist.py:103-104 | exactly one leading "www." is removed, and nothing else |
| UrlBlacklist.StripTrailing | HacksterBot/modules/moderation/services/url_blacklist.py:109 | the result is the longest prefix that does not end with the character, and only that character was removed |
| UrlBlacklist.NormalizeDomain | HacksterBot/modules/moderation/services/url_blacklist.py:218-220 | the key a domain is stored and removed under has no upper-case letter, so entries differing only in case share one key |
| UrlBlacklist.NormalizeParsed | HacksterBot/modules/moderation/services/url_blacklist.py:96-117 | a parsable URL normalises to the rebuild of its parts with the host's "www.", the path's trailing slashes and the fragment removed, and those parts have no upper case |
| UrlBlacklist.NormalizeLowerCase | HacksterBot/modules/moderation/services/url_blacklist.py:96-121 | the normalised URL has no upper-case letter, parsable or not |
| UrlBlacklist.NormalizeDropsFragment | HacksterBot/modules/moderation/services/url_blacklist.py:106-113 | a parsable URL normalises without any '#' |
| UrlBlacklist.NormalizeKeepsQuery | HacksterBot/modules/moderation/services/url_blacklist.py:106-113 | a non-empty query is kept at the very end, after '?' |
| UrlBlacklist.NormalizeNoTrailingSlash | HacksterBot/modules/moderation/services/url_blacklist.py:109 | with a host and no query the normalised URL does not end with '/' |
| UrlBlacklist.NormalizeHost | HacksterBot/modules/moderation/services/url_blacklist.py:123-132 | re-parsing the normalised URL of a URL with scheme and host finds the same scheme and the host without "www.", as the domain lookup needs |
| UrlBlacklist.UnparseReparses | HacksterBot/modules/moderation/services/url_blacklist.py:106-113 | `urlunparse` of well-split parts with scheme and host parses back to the same scheme and host |
| UrlBlacklist.Survivors | HacksterBot/modules/moderation/services/url_blacklist.py:352-377 | exactly the records dated at or after the cutoff are kept, unchanged |
| UrlBlacklist.Blacklist.constructor | HacksterBot/modules/moderation/services/url_blacklist.py:22-43 | a new blacklist has all three caches empty |
| UrlBlacklist.Blacklist.Lookup | HacksterBot/modules/moderation/services/url_blacklist.py:138-170 | None for the empty URL; the exact normalised URL wins, then the target of a known short link, then the host; a found entry is a filed one; None means none of the three matched |
| UrlBlacklist.Blacklist.AddUrl | HacksterBot/modules/moderation/services/url_blacklist.py:172-202 | a non-empty URL is filed under its normalised form, so looking it up returns the new entry; the empty URL changes nothing |
| UrlBlacklist.Blacklist.AddDomain | HacksterBot/modules/moderation/services/url_blacklist.py:204-236 | a non-empty domain is filed under its lower-cased, stripped form without "www."; other caches are unchanged |
| UrlBlacklist.Blacklist.AddShortened | HacksterBot/modules/moderation/services/url_blacklist.py:238-255 | a short link is recorded to its target unless either is empty or they are equal |
| UrlBlacklist.Blacklist.AddUnsafeResult | HacksterBot/modules/moderation/services/url_blacklist.py:257-285 | an unsafe report files the URL with the report's threat types, severity and message or their defaults, tagged with the source, and a lookup finds it; a differing original is recorded as a short link; a safe report or empty URL changes nothing |
| UrlBlacklist.Blacklist.RemoveUrl | HacksterBot/modules/moderation/services/url_blacklist.py:287-309 | true exactly when the normalised URL was filed; only that entry goes, and afterwards it is not filed |
| UrlBlacklist.Blacklist.RemoveDomain | HacksterBot/modules/moderation/services/url_blacklist.py:311-335 | true exactly when the normalised domain was filed; only that entry goes |
| UrlBlacklist.Blacklist.Cleanup | HacksterBot/modules/moderation/services/url_blacklist.py:337-385 | nothing for days of zero or below; otherwise both caches keep exactly the records dated at or after now minus the days, and undated ones go |
| UrlBlacklist.ExpiredKeys | HacksterBot/modules/moderation/services/url_blacklist.py:352-362 | the collected keys are exactly the expired records', so removing them leaves the survivors |
| UrlBlacklist.AddThenRemoveDomain | HacksterBot/modules/moderation/services/url_blacklist.py:204-335 | a domain just added is found and removed again, as both normalise it the same way |
| UrlSafety.UpperNames | HacksterBot/modules/moderation/services/url_safety.py:362-364 | a name is listed exactly when it is the upper-case form of some non-empty category |
| UrlSafety.ThreatScore | HacksterBot/modules/moderation/services/url_safety.py:353-357 | the score lies in 0 to 1, is 0 exactly when no engine found the URL malicious or suspicious, and is 1 when every engine found it malicious |
| UrlSafety.Severity | HacksterBot/modules/moderation/services/url_safety.py:400-417 | the level lies in 1 to 9 and is never 2; it is 7 or more exactly when some engine found the URL malicious; 1 exactly when nothing was found and the score is below the threshold; without malicious engines it is 4 or more exactly when some engine found it suspicious |
| UrlSafety.SeverityMonotone | HacksterBot/modules/moderation/services/url_safety.py:400-417 | more malicious or suspicious engines never lower the severity |
| UrlSafety.ThreatMessage | HacksterBot/modules/moderation/services/url_safety.py:419-435 | the message is "URL appears safe" exactly when the severity is 1 |
| UrlSafety.CollectAsWritten | HacksterBot/modules/moderation/services/url_safety.py:361-367 | as written, the list is no longer than the categories and holds only upper-cased non-empty categories |
| UrlSafety.CollectAsWrittenNamesAll | HacksterBot/modules/moderation/services/url_safety.py:361-367 | as written, the list names exactly the threat types that are meant; only repeats differ |
| UrlSafety.CollectAsWrittenRepeats | HacksterBot/modules/moderation/services/url_safety.py:361-364 | as written, two engines reporting "spam" give ["SPAM", "SPAM"], which repeats a type, while the intended loop gives ["SPAM"] |
| UrlSafety.CollectAsWrittenWhenUpper | HacksterBot/modules/moderation/services/url_safety.py:361-364 | the loop as written does what is evidently meant exactly when the categories are already upper-case |
| UrlSafety.CollectThreatTypes | HacksterBot/modules/moderation/services/url_safety.py:361-364 | each upper-cased non-empty category once, in the order first reported |
| UrlSafety.UrlReport | HacksterBot/modules/moderation/services/url_safety.py:346-385 | unsafe exactly when the score reaches the threshold; an unsafe report has a threat type; no type repeats; without malicious engines the types are ["UNKNOWN"] when unsafe and none otherwise; with them every reported category is listed; severity 7 or more exactly with malicious engines |
| UrlSafety.ParseUrlReport | HacksterBot/modules/moderation/services/url_safety.py:346-385 | the loop computes exactly `UrlReport` |
| UrlSafety.DomainReport | HacksterBot/modules/moderation/services/url_safety.py:167-206 | unsafe exactly when the score reaches the threshold or any engine found the domain malicious; the threat types are all reported categories upper-cased, once each; tagged as the domain check |
| UrlSafety.CombineReports | HacksterBot/modules/moderation/services/url_safety.py:470-507 | nothing exactly for no reports; a single report as it is |
| UrlSafety.CombineSeveralUnsafe | HacksterBot/modules/moderation/services/url_safety.py:483-498 | several reports are unsafe exactly when the average score reaches the threshold or any engine found the URL malicious, and have severity 7 or more exactly in the latter case |
| UrlSafety.CombineSeveralTypes | HacksterBot/modules/moderation/services/url_safety.py:487-490 | several reports combine into the union of their threat types, each once |
| UrlSafety.StopsAt | HacksterBot/modules/moderation/services/url_safety.py:301-344 | a poll that neither completes nor is retried ends the wait without success |
| UrlSafety.AwaitAnalysis | HacksterBot/modules/moderation/services/url_safety.py:301-344 | success exactly when one of the three polls completes after only retried ones, with that poll's parsed report; three retried polls are the timeout |
| UrlSafety.Submit | HacksterBot/modules/moderation/services/url_safety.py:264-299 | success only after a submission with an analysis id; a missing id, another status or an exception give their failures |
| UrlSafety.Recent | HacksterBot/modules/moderation/services/url_safety.py:90-91 | a call is kept exactly when it is less than a minute old; no more calls than before |
| UrlSafety.ExtractUrls | HacksterBot/modules/moderation/services/url_safety.py:509-527 | no URL twice, only matched URLs, at most the limit, and every match when the distinct matches fit in it |
| UrlSafety.UrlSafetyChecker.constructor | HacksterBot/modules/moderation/services/url_safety.py:51-77 | the settings are kept and no API call has been made |
| UrlSafety.UrlSafetyChecker.RateLimitCheck | HacksterBot/modules/moderation/services/url_safety.py:86-99 | a call is admitted exactly when fewer than the limit were made in the last minute; calls older than a minute are forgotten and an admitted call is remembered |
| UrlSafety.UrlSafetyChecker.CheckVirusTotal | HacksterBot/modules/moderation/services/url_safety.py:208-262 | no key or no free slot fail with their messages; success needs both, and is the parsed report of a known URL or the analysis of a submitted unknown one; a timeout is "Request timeout" |
| UrlSafety.UrlSafetyChecker.CheckDomainReputation | HacksterBot/modules/moderation/services/url_safety.py:112-165 | an empty domain, no key or no free slot fail with their messages; success is the parsed domain report, or the safe unknown-domain report for a domain never seen |
| UrlSafety.UrlSafetyChecker.CheckMultipleApis | HacksterBot/modules/moderation/services/url_safety.py:437-468 | at most two reports are combined; with none the URL is not blocked; without a key no service is asked; an unsafe verdict always comes from some report |
| UrlSafety.UrlSafetyChecker.Destination | HacksterBot/modules/moderation/services/url_safety.py:580-589 | a URL that cannot be parsed has no destination; a shortened URL that expands elsewhere is replaced by its final URL; otherwise the URL itself |
| UrlSafety.UrlSafetyChecker.CheckUrl | HacksterBot/modules/moderation/services/url_safety.py:529-650 | the empty URL is refused as safe; a blacklisted URL is unsafe by the blacklist without any API call and with its severity and types; errors never block; a URL found unsafe by the services is then in the blacklist; a safe verdict leaves the blacklist's URLs unchanged; its domains never change |
| UrlSafety.UrlSafetyChecker.CheckTarget | HacksterBot/modules/moderation/services/url_safety.py:580-640 | the check of a URL with a scheme: errors never block, an unsafe verdict from the services is filed in the blacklist, a safe one leaves its URLs unchanged; its domains never change |
| UrlSafety.Record | HacksterBot/modules/moderation/services/url_safety.py:622-629 | an unsafe result is filed so that looking up its URL finds it; the blocked domains are unchanged |
| UrlSafety.GatherChecks | HacksterBot/modules/moderation/services/url_safety.py:678-699 | the batch is unsafe exactly when some check that did not raise found its URL unsafe; each URL maps to its last check |
| UrlSafety.CheckOf | HacksterBot/modules/moderation/services/url_safety.py:684-694 | a raised check is recorded as safe with the exception's text; a finished one as it is |
| UrlSafety.UrlSafetyChecker.CheckByApis | HacksterBot/modules/moderation/services/url_safety.py:607-640 | the verdict is the services' answer for the final URL with no error; an unsafe answer files that URL in the blacklist so it is found afterwards, a safe one leaves the blacklist's URLs and short links as they were, and its domains never change |
| UrlUnshortener.SetHeader | HacksterBot/modules/moderation/services/url_unshortener.py:201-202 | the header is set to the value, every other header keeps its value, and the table grows by at most one entry |
| UrlUnshortener.HeadersFor | HacksterBot/modules/moderation/services/url_unshortener.py:197-204 | a special domain gets its own headers with its User-Agent; any other domain gets the default headers |
| UrlUnshortener.WithScheme | HacksterBot/modules/moderation/services/url_unshortener.py:211-212 | the result starts with "http://" or "https://", and a URL that already does is unchanged |
| UrlUnshortener.WithSchemeIdempotent | HacksterBot/modules/moderation/services/url_unshortener.py:211-212 | adding the scheme twice is adding it once |
| UrlUnshortener.StripChar | HacksterBot/modules/moderation/services/url_unshortener.py:222 | the stripped path is no longer than the path and neither starts nor ends with the character |
| UrlUnshortener.IsShortenedWithScheme | HacksterBot/modules/moderation/services/url_unshortener.py:206-232 | a non-empty URL is judged shortened or not the same way with and without the added scheme |
| UrlUnshortener.IsShortenedShortOrListed | HacksterBot/modules/moderation/services/url_unshortener.py:214-231 | a parseable URL under 30 characters, or one on a listed shortener host, is judged shortened |
| UrlUnshortener.NotShortenedMeans | HacksterBot/modules/moderation/services/url_unshortener.py:214-232 | a URL judged not shortened is at least 30 characters long, is not on a listed host and has no short-code path |
| UrlUnshortener.ResolveOn | HacksterBot/modules/moderation/services/url_unshortener.py:305-310 | an absolute Location is kept; a relative one is put after the current scheme and host, directly when it starts with '/' and after a '/' otherwise |
| UrlUnshortener.Resolve | HacksterBot/modules/moderation/services/url_unshortener.py:305-310 | an absolute Location is kept as it is |
| UrlUnshortener.FollowGets | HacksterBot/modules/moderation/services/url_unshortener.py:288-348 | at most the configured number of redirects is followed; the history only grows at its end, and every added URL was not in the history before |
| UrlUnshortener.UnshortenWithRequests | HacksterBot/modules/moderation/services/url_unshortener.py:249-374 | nothing only where the starting host cannot be read; the history starts with the URL (scheme added) and has at most two more entries than the redirect limit; success ends at the last URL in the history with one redirect fewer than entries; failure keeps the URL and has an error; without a HEAD redirect no URL repeats |
| UrlUnshortener.ChooseExpansion | HacksterBot/modules/moderation/services/url_unshortener.py:482-559 | disabled gives the URL itself as a success; the empty URL fails; a requests expansion that moved wins; a success comes from requests or the browser; a failure means neither succeeded and names the URL with its scheme |
| UrlUnshortener.DistinctUrls | HacksterBot/modules/moderation/services/url_unshortener.py:234-247 | no URL twice, and exactly the matched URLs (none for empty text) |
| UrlUnshortener.ByOriginalLastWins | HacksterBot/modules/moderation/services/url_unshortener.py:561-581 | the batch fails exactly when one expansion raised; otherwise every original URL is a key and holds the last result for it |
| AiHandler.InWindow | HacksterBot/modules/ai/handler.py:97-104 | a timestamp is kept exactly when it is after the cutoff a window before now; never more than before |
| AiHandler.RateCheckSpec | HacksterBot/modules/ai/handler.py:87-112 | the user is limited exactly when the window already holds the limit's worth of messages; a limited message is not recorded; an admitted one is recorded last after the kept ones; everything kept is inside the window; a list within the limit stays within it |
| AiHandler.QuietUserAdmitted | HacksterBot/modules/ai/handler.py:87-112 | a user whose earlier messages are all older than the window is admitted and only the new message is kept |
| AiHandler.Collapse | HacksterBot/modules/ai/handler.py:128-129 | the result is no longer than the text, is empty exactly when the text is, and keeps its first and last characters |
| AiHandler.CollapseKeepsOthers | HacksterBot/modules/ai/handler.py:128-129 | collapsing removes only the collapsed character: every other character is kept, in order |
| AiHandler.CollapseNoTriple | HacksterBot/modules/ai/handler.py:128-129 | after collapsing no three of the character remain in a row |
| AiHandler.CollapseKeepsNoTriple | HacksterBot/modules/ai/handler.py:128-129 | collapsing one character never creates three in a row of another |
| AiHandler.CollapseFixed | HacksterBot/modules/ai/handler.py:128-129 | text without three in a row is left as it is |
| AiHandler.CleanResponseNoTriple | HacksterBot/modules/ai/handler.py:114-131 | a cleaned reply has no three '*' and no three '_' in a row |
| AiHandler.CleanResponseKeepsText | HacksterBot/modules/ai/handler.py:114-131 | cleaning loses nothing of the trimmed reply but '*' and '_' characters |
| AiHandler.CleanResponseIdempotent | HacksterBot/modules/ai/handler.py:114-131 | cleaning a cleaned reply changes nothing |
| AiHandler.SplitMessage | HacksterBot/modules/ai/handler.py:204-251 | the packing loop computes exactly the splitter as written (`SplitParts`) |
| AiHandler.PackSentencesFit | HacksterBot/modules/ai/handler.py:216-233 | as written, packing keeps every part within the limit whenever every sentence fits on its own |
| AiHandler.SplitPartsFit | HacksterBot/modules/ai/handler.py:204-251 | a reply within the limit is one part; when every sentence fits, every part fits |
| AiHandler.SplitOverflowExample | HacksterBot/modules/ai/handler.py:229-233 | as written, a sentence that overflows a non-empty buffer becomes the next part whole: with limit 2, "a。bbb。" gives a part of four characters |
| AiHandler.SplitPartsLong | HacksterBot/modules/ai/handler.py:249-251 | a long reply ends with the stripped buffer left over after packing |
| AiHandler.Chunks | HacksterBot/modules/ai/handler.py:245-247 | every piece of a forced split is within the limit |
| AiHandler.SplitPartsBoundedFit | HacksterBot/modules/ai/handler.py:204-251 | with an overflowing sentence or word itself split, every part fits, and a short reply is still one part |
| AiHandler.PartsToSend | HacksterBot/modules/ai/handler.py:184-202 | a reply within 1900 characters is sent as one message |
| AiHandler.Yielded | HacksterBot/modules/ai/handler.py:303-306 | no empty chunk is yielded |
| AiHandler.FirstSuccess | HacksterBot/modules/ai/handler.py:300-315 | the first attempt within the retry budget that did not raise, every earlier one having raised; none when all of them raised |
| AiHandler.StreamStep | HacksterBot/modules/ai/handler.py:300-315 | the stream from an attempt starts with that attempt's own chunks |
| AiHandler.StreamWithRetries | HacksterBot/modules/ai/handler.py:300-315 | the retry loop yields exactly the specified stream and makes attempts up to and including the first that did not raise, or all of them |
| AiHandler.RetryBound | HacksterBot/modules/ai/handler.py:300-315 | the apology closes the stream exactly when every allowed attempt raised, and then follows all their chunks; otherwise the stream is the chunks of the attempts up to the first that finished |
| AiHandler.PackWordsInto | HacksterBot/modules/ai/handler.py:235-246 | the word loop leaves the parts and the buffer exactly as `PackWords` does, whose packing keeps every part within the limit |
| InviteStore.ToGmt8 | HacksterBot/modules/invites/services/invite_mongo.py:30-42 | the result is at +08:00 and denotes the same instant, a naive time being read as UTC |
| InviteStore.ToGmt8Naive | HacksterBot/modules/invites/services/invite_mongo.py:40-42 | a naive time reads eight hours later, and converting twice is converting once |
| InviteStore.FirstUsed | HacksterBot/modules/invites/services/invite_mongo.py:175-191 | none exactly when no code was used by the join; otherwise the first used one in the guild's order |
| InviteStore.FindInviteByUsage | HacksterBot/modules/invites/services/invite_mongo.py:162-195 | none exactly when no code is new or has more uses than before; otherwise the first such code in the guild's order, with its inviter |
| InviteStore.UnchangedInviteNotChosen | HacksterBot/modules/invites/services/invite_mongo.py:177-183 | an invite that existed before with the same or fewer uses is never the answer |
| InviteStore.FreshStats | HacksterBot/modules/invites/services/invite_mongo.py:349-357 | fresh statistics count no invites and have no first invite time |
| InviteStore.Updated | HacksterBot/modules/invites/services/invite_mongo.py:358-369 | a join adds one to total and active, sets the first invite time only once and the last one to now; a leave adds one to left and takes one from active but not below zero, leaving total and times alone; owner and creation time never change |
| InviteStore.UpdatedKeepsBounds | HacksterBot/modules/invites/services/invite_mongo.py:358-369 | neither action breaks 0 <= active <= total, and a first invite time never moves |
| InviteStore.CountsAppend | HacksterBot/modules/invites/services/invite_mongo.py:59-73 | a new record adds one to its inviter's invited count, and one to the active count when active |
| InviteStore.CountsClose | HacksterBot/modules/invites/services/invite_mongo.py:105-111 | closing an active record keeps every invited count and takes one from its inviter's active count only |
| InviteStore.Closed | HacksterBot/modules/invites/services/invite_mongo.py:105-107 | the closed record has left now and is no longer active, and keeps its inviter, guild and member |
| InviteStore.FirstActive | HacksterBot/modules/invites/services/invite_mongo.py:93-97 | the first active record of the member in the guild; none exactly when there is none |
| InviteStore.InviteMongo.constructor | HacksterBot/modules/invites/services/invite_mongo.py:21-24 | no records and no statistics |
| InviteStore.InviteMongo.UpdateInviterStats | HacksterBot/modules/invites/services/invite_mongo.py:332-376 | the inviter's statistics, created fresh when missing, are updated for the action; no others change |
| InviteStore.InviteMongo.RecordInviteJoin | HacksterBot/modules/invites/services/invite_mongo.py:44-80 | a new active record is appended and the inviter's total and active counts are one more than their records before; each inviter's statistics still count exactly their records |
| InviteStore.InviteMongo.RecordInviteLeave | HacksterBot/modules/invites/services/invite_mongo.py:82-118 | with no active record of the member nothing changes and the result is none; otherwise the first such record is closed and returned, and its inviter's active count goes down by one and stays non-negative, total unchanged |
| InviteStore.CountPositive | HacksterBot/modules/invites/services/invite_mongo.py:359-361 | an active record counts toward its inviter's active invites |
| InviteStore.NoStatsNoRecords | HacksterBot/modules/invites/services/invite_mongo.py:349-357 | an inviter without statistics has no records |
| InviteStore.ActiveWithinTotal | HacksterBot/modules/invites/services/invite_mongo.py:359-369 | in a consistent store an inviter's active count lies between 0 and total, and total is active plus left, so the leave clamp never fires |
| InviteStore.Bump | HacksterBot/modules/invites/services/invite_mongo.py:270-273 | one more ticket under the key: the counts sum to one more, the keys are the old ones and the key, and no key repeats |
| InviteStore.CountForBump | HacksterBot/modules/invites/services/invite_mongo.py:270-273 | only the key's count goes up, by one |
| InviteStore.Grouped | HacksterBot/modules/invites/services/invite_mongo.py:268-273 | the counts sum to the number of tickets and no event repeats |
| InviteStore.GroupedCounts | HacksterBot/modules/invites/services/invite_mongo.py:268-273 | each event's count is the number of tickets grouped under it |
| InviteStore.CurrentTickets | HacksterBot/modules/invites/services/invite_mongo.py:262-266 | only tickets of the current events, as many as there are |
| InviteStore.CurrentEventTickets | HacksterBot/modules/invites/services/invite_mongo.py:241-285 | without the ticket system nothing is counted; otherwise the total is the number of current-event tickets and the events are their grouping; the counts sum to the total |
| InviteStore.GroupByEvent | HacksterBot/modules/invites/services/invite_mongo.py:268-273 | the grouping loop computes exactly the grouping by event |
| InviteEvents.ReloadOnlyWhenNewer | HacksterBot/modules/invites/services/event_manager.py:46-49 | after a load at a non-zero time the file is read again exactly when its modification time moves past that time |
| InviteEvents.RunningEvents | HacksterBot/modules/invites/services/event_manager.py:75-84 | only enabled events with readable dates whose date range holds today, taken from the file's events, and no more of them |
| InviteEvents.RunningEventsComplete | HacksterBot/modules/invites/services/event_manager.py:75-84 | every enabled event whose date range holds today is kept |
| InviteEvents.EntriesFor | HacksterBot/modules/invites/services/event_manager.py:124-134 | one entry per reward of the event, in order, each naming the event, the reward, the inviter and the invited member |
| InviteEvents.RewardEntriesExact | HacksterBot/modules/invites/services/event_manager.py:119-137 | an entry is owed exactly for a reward of an invite-reward event whose conditions hold (at most one invite asked, one when unstated), with this invite's inviter, guild and member |
| InviteEvents.ProcessReward | HacksterBot/modules/invites/services/event_manager.py:141-210 | a reward is awarded only when it is a ticket, the ticket system is there, the award succeeds and an amount is given; a reward of another type gives nothing |
| InviteEvents.Notification | HacksterBot/modules/invites/services/event_manager.py:212-241 | a text exactly for an awarded result of a ticket reward of an event whose on-reward notification is not switched off; the text names the invited member and the event |
| InviteEvents.AnnouncedOnlyWhenAwarded | HacksterBot/modules/invites/services/event_manager.py:141-241 | an invite is announced exactly when a ticket reward was awarded and the event's notification is not switched off |
| InviteEvents.EventManager.constructor | HacksterBot/modules/invites/services/event_manager.py:17-30 | no events and nothing loaded yet |
| InviteEvents.EventManager.LoadEventsConfig | HacksterBot/modules/invites/services/event_manager.py:32-60 | succeeds exactly when the file exists and is either not newer than the last load or can be parsed; only a successful read replaces the events and the load time, anything else keeps them |
| InviteEvents.ScanRunning | HacksterBot/modules/invites/services/event_manager.py:75-86 | when every enabled event has readable dates the scan gives the running events in file order; otherwise it raises (None) |
| InviteEvents.EventManager.GetActiveEvents | HacksterBot/modules/invites/services/event_manager.py:62-86 | [] when the load fails; otherwise the events running today in file order, or a raise (None) when an enabled event has an unreadable date |
| InviteEvents.EventManager.CheckInviteRewards | HacksterBot/modules/invites/services/event_manager.py:98-139 | nothing, and no file read, when event checking is off; nothing when the load fails; a raise (None) when an enabled event has an unreadable date; otherwise exactly the rewards owed by the running events, event by event and reward by reward |
| InviteEvents.AppendRewards | HacksterBot/modules/invites/services/event_manager.py:128-137 | the loop over one event's rewards appends exactly that event's owed entries, in order, after those already collected |
| DailyReport.ChartSpan | HacksterBot/modules/invites/services/daily_reporter.py:148-161 | nothing exactly when today is past the event's end; otherwise the chart ends at today or the end, whichever is first, and spans the days from the start to then |
| DailyReport.Estimate | HacksterBot/modules/invites/services/daily_reporter.py:186-188 | a day's estimate is never negative except the last day, which shows the current count, and never exceeds a non-negative current count |
| DailyReport.RunningMaxMonotone | HacksterBot/modules/invites/services/daily_reporter.py:194-197 | the clamped series never falls |
| DailyReport.RunningMaxAbove | HacksterBot/modules/invites/services/daily_reporter.py:194-197 | each clamped day is at least every estimate up to that day |
| DailyReport.RunningMaxAttained | HacksterBot/modules/invites/services/daily_reporter.py:194-197 | each clamped day is one of the estimates up to that day |
| DailyReport.ChartEndsAtCurrent | HacksterBot/modules/invites/services/daily_reporter.py:186-197 | with a non-negative member count the chart ends at exactly the current count |
| DailyReport.ClampRunningMax | HacksterBot/modules/invites/services/daily_reporter.py:195-197 | the in-place clamp loop computes exactly the running maximum |
| DailyReport.GrowthSeries | HacksterBot/modules/invites/services/daily_reporter.py:148-201 | nothing exactly when the event has ended or the span holds no day; otherwise the clamped estimates, one per day of the span, never falling |
| DailyReport.EstimateCounts | HacksterBot/modules/invites/services/daily_reporter.py:173-192 | the day loop computes exactly the estimate of each day |
| DailyReport.TickCount | HacksterBot/modules/invites/services/daily_reporter.py:344-351 | a chart of 15 to 30 days gets between 5 and 15 ticks, a longer one between 8 and 10 |
| DailyReport.PositionLabelsDistinct | HacksterBot/modules/invites/services/daily_reporter.py:741-751 | different leaderboard ranks get different labels |
| DailyReport.ChangeLabelRoundTrip | HacksterBot/modules/invites/services/daily_reporter.py:756-764 | the change label gives back the change: the number inside the brackets reads as today's invites less yesterday's |
| DailyReport.NextReportTime | HacksterBot/modules/invites/services/daily_reporter.py:866-901 | a next report time is strictly after now and at most a day later, on the report's clock |
| DailyReport.NextAt | HacksterBot/modules/invites/services/daily_reporter.py:889-894 | strictly after now, at most a day later, and at the scheduled hour and minute |
| DailyReport.NextAtIsFirst | HacksterBot/modules/invites/services/daily_reporter.py:889-894 | no time at the scheduled hour and minute strictly after now comes earlier |
| WelcomeRecords.NewRecord | HacksterBot/modules/welcome/services/welcomed_members_db.py:71-78 | a first join is pending, joined once and never retried, for that member, name and time |
| WelcomeRecords.MarkedFailed | HacksterBot/modules/welcome/services/welcomed_members_db.py:134-147 | a failure sets the status to failed, adds one retry and stamps the retry time, and changes nothing else |
| WelcomeRecords.FailedRetryTiming | HacksterBot/modules/welcome/services/welcomed_members_db.py:155-161 | a record failed with retries left is due again exactly once the retry interval has passed since the failure |
| WelcomeRecords.FailTimesCount | HacksterBot/modules/welcome/services/welcomed_members_db.py:139-142 | failing k times adds k retries and leaves the record failed; once the retries reach the maximum it is never due |
| WelcomeRecords.DueRecords | HacksterBot/modules/welcome/services/welcomed_members_db.py:157-159 | only records due for a retry, taken from the table, and no more of them |
| WelcomeRecords.DueRecordsComplete | HacksterBot/modules/welcome/services/welcomed_members_db.py:157-159 | every record due for a retry is kept |
| WelcomeRecords.InsertByRetry | HacksterBot/modules/welcome/services/welcomed_members_db.py:161 | inserting into a list ordered by last retry keeps it ordered and adds exactly the one record |
| WelcomeRecords.SortByRetry | HacksterBot/modules/welcome/services/welcomed_members_db.py:161 | the result is ordered by last retry time, never-retried first, and is a permutation of the input |
| WelcomeRecords.PendingWelcomesExact | HacksterBot/modules/welcome/services/welcomed_members_db.py:149-172 | the pending list holds exactly the records due for a retry, ordered by last retry time with never-retried records first |
| WelcomeRecords.PendingWelcomesMembers | HacksterBot/modules/welcome/services/welcomed_members_db.py:149-172 | each record due for a retry is listed, and each listed entry is what the list shows of a due record |
| WelcomeRecords.IndexOfMember | HacksterBot/modules/welcome/services/welcomed_members_db.py:62 | the position of the member's record in the guild; none exactly when there is none |
| WelcomeRecords.UpdateKeepsUnique | HacksterBot/modules/welcome/services/welcomed_members_db.py:53-62 | replacing a member's record by another for the same member keeps one record per member |
| WelcomeRecords.AppendKeepsUnique | HacksterBot/modules/welcome/services/welcomed_members_db.py:71-76 | adding the record of a member who has none keeps one record per member |
| WelcomeRecords.JoinCountOf | HacksterBot/modules/welcome/services/welcomed_members_db.py:83-96 | the member's join count, 0 without a record |
| WelcomeRecords.IndexOfMemberUnique | HacksterBot/modules/welcome/services/welcomed_members_db.py:21-30 | with one record per member the lookup finds that record wherever it sits |
| WelcomedMembersSql.Rejoined | HacksterBot/modules/welcome/services/welcomed_members_db.py:53-60 | a rejoin adds one join and takes the new name, and keeps the status, the member and the first welcome time |
| WelcomedMembersSql.MarkedSuccess | HacksterBot/modules/welcome/services/welcomed_members_db.py:121-132 | the status becomes success |
| WelcomedMembersSql.RejoinAfterSuccess | HacksterBot/modules/welcome/services/welcomed_members_db.py:53-68 | a member who rejoins after a successful welcome is not welcomed again and never due for a retry; any other rejoin keeps the retry data and whether a retry is due |
| WelcomedMembersSql.SuccessKeepsRetryCount | HacksterBot/modules/welcome/services/welcomed_members_db.py:121-147 | a success keeps the retry count, so a later failure continues it |
| WelcomedMembersSql.WelcomedMembersDb.constructor | HacksterBot/modules/welcome/services/welcomed_members_db.py:7-43 | an empty table |
| WelcomedMembersSql.WelcomedMembersDb.AddOrUpdateMember | HacksterBot/modules/welcome/services/welcomed_members_db.py:45-81 | a failing database gives (false, 0) and changes nothing; a first join adds a pending record and gives (true, 1); a rejoin updates the member's row and gives whether the last welcome did not succeed and the new join count; one row per member is kept |
| WelcomedMembersSql.WelcomedMembersDb.MarkWelcomeSuccess | HacksterBot/modules/welcome/services/welcomed_members_db.py:121-132 | the member's row, if any, becomes a success; nothing else changes |
| WelcomedMembersSql.WelcomedMembersDb.MarkWelcomeFailed | HacksterBot/modules/welcome/services/welcomed_members_db.py:134-147 | the member's row, if any, is failed with one more retry stamped now; nothing else changes |
| WelcomedMembersSql.WelcomedMembersDb.GetMemberJoinCount | HacksterBot/modules/welcome/services/welcomed_members_db.py:83-96 | 0 when the query fails or the member has no row; otherwise the join count of the member's row |
| WelcomedMembersSql.WelcomedMembersDb.GetPendingWelcomes | HacksterBot/modules/welcome/services/welcomed_members_db.py:149-172 | [] when the query fails; otherwise every due row is listed and nothing but due rows |
| WelcomedMembersDocs.Rejoined | HacksterBot/modules/welcome/services/welcomed_members_mongo.py:46-57 | a rejoin adds one join and takes the new name, and keeps the member and the first welcome time |
| WelcomedMembersDocs.MarkedSuccess | HacksterBot/modules/welcome/services/welcomed_members_mongo.py:133-136 | the status becomes success |
| WelcomedMembersDocs.RejoinRetryData | HacksterBot/modules/welcome/services/welcomed_members_mongo.py:46-61 | a member who rejoins after a successful welcome is due for a welcome at once; any other rejoin keeps the status, the retry data and whether a retry is due |
| WelcomedMembersDocs.SuccessEndsRetries | HacksterBot/modules/welcome/services/welcomed_members_mongo.py:123-159 | a successful welcome is never retried, and a failure after it counts retries from one |
| WelcomedMembersDocs.StatisticsPartition | HacksterBot/modules/welcome/services/welcomed_members_mongo.py:198-223 | the success, pending and failed counts add up to the guild's members |
| WelcomedMembersDocs.KeepFresh | HacksterBot/modules/welcome/services/welcomed_members_mongo.py:225-245 | exactly the records that are not stale (a success first welcomed before the cutoff) are kept, and no more |
| WelcomedMembersDocs.KeepFreshUnique | HacksterBot/modules/welcome/services/welcomed_members_mongo.py:225-245 | clean-up keeps one record per member |
| WelcomedMembersDocs.WelcomedMembersMongo.constructor | HacksterBot/modules/welcome/services/welcomed_members_mongo.py:20-28 | an empty collection |
| WelcomedMembersDocs.WelcomedMembersMongo.AddOrUpdateMember | HacksterBot/modules/welcome/services/welcomed_members_mongo.py:30-75 | a failing database or a name over 200 characters gives (false, 0) and changes nothing; otherwise a welcome is always needed: a first join adds a pending record with count 1, a rejoin updates the member's record and gives its new count |
| WelcomedMembersDocs.WelcomedMembersMongo.MarkWelcomeSuccess | HacksterBot/modules/welcome/services/welcomed_members_mongo.py:123-140 | the member's record, if any, becomes a success with its retry data cleared; nothing else changes |
| WelcomedMembersDocs.WelcomedMembersMongo.MarkWelcomeFailed | HacksterBot/modules/welcome/services/welcomed_members_mongo.py:142-159 | the member's record, if any, is failed with one more retry stamped now; nothing else changes |
| WelcomedMembersDocs.WelcomedMembersMongo.GetMemberJoinCount | HacksterBot/modules/welcome/services/welcomed_members_mongo.py:77-93 | 0 when the query fails or the member has no record; otherwise the join count of the member's record |
| WelcomedMembersDocs.WelcomedMembersMongo.GetPendingWelcomes | HacksterBot/modules/welcome/services/welcomed_members_mongo.py:161-196 | [] when the query fails; otherwise every due record is listed and nothing but due records |
| WelcomedMembersDocs.WelcomedMembersMongo.CleanupOldRecords | HacksterBot/modules/welcome/services/welcomed_members_mongo.py:225-245 | a failing database deletes nothing; otherwise exactly the stale records are deleted and their number is returned |
| Tickets.NormaliseLabel | HacksterBot/modules/tickets/__init__.py:1137-1160 | every category's own name normalises to that category |
| Tickets.NormaliseUnknown | HacksterBot/modules/tickets/__init__.py:1155-1160 | an answer that is none of the accepted spellings becomes "other" |
| Tickets.FirstRule | HacksterBot/modules/tickets/__init__.py:1172-1185 | the ladder answers "other" or the category of one of its rules |
| Tickets.KeywordFallback | HacksterBot/modules/tickets/__init__.py:1168-1185 | the keyword answer is tagged as the photography-rule fallback exactly when the request is about recruiting photographers, else as the local fallback |
| Tickets.ChainIsFirstRule | HacksterBot/modules/tickets/__init__.py:1172-1185 | the if-chain is the first-match rule of the keyword table, and answers "other" exactly when no keyword of any rule occurs |
| Tickets.KeywordFallbackIsLadder | HacksterBot/modules/tickets/__init__.py:1172-1185 | outside the photography rule the fallback is the keyword ladder, and answers "other" exactly when no keyword of the ladder occurs |
| Tickets.AnalyzeUserMessage | HacksterBot/modules/tickets/__init__.py:1086-1185 | a photography-recruitment request is an event inquiry by that rule; otherwise the AI's trimmed answer, normalised; without the AI the keyword ladder on the lower-cased request |
| Tickets.ActiveEvents | HacksterBot/modules/tickets/__init__.py:1205 | exactly the active events, and no more of them |
| Tickets.FindById | HacksterBot/modules/tickets/__init__.py:1199-1202 | an event with that id when there is one; none exactly when no event has it |
| Tickets.FirstKeywordHit | HacksterBot/modules/tickets/__init__.py:1241-1244 | an event with a keyword in the request when there is one; none exactly when no event has such a keyword |
| Tickets.AnalyzeEvent | HacksterBot/modules/tickets/__init__.py:1191-1269 | the answer is the no-event pair, an active event, or the configured special event for a photography-recruitment request |
| Tickets.PickedByNumber | HacksterBot/modules/tickets/__init__.py:1248-1256 | a numbered choice is one of the active events |
| Tickets.NumberedReplyPicks | HacksterBot/modules/tickets/__init__.py:1250-1256 | a digit-only reply n between 1 and the number of active events picks the n-th active event |
| Tickets.KeywordThenFirst | HacksterBot/modules/tickets/__init__.py:1238-1265 | whenever the reply gives no usable number (none, not digits only, or out of range), the first active event with a matching keyword wins, else the first active event |
| Tickets.TicketInfo | HacksterBot/modules/tickets/__init__.py:1357-1386 | proposals and sponsorships go to the developer role, join requests to both roles, everything else to the customer role; an unknown category gets the general title |
| Tickets.EventCategorisationPings | HacksterBot/modules/tickets/__init__.py:969-982 | a ticket sent on to event classification pings exactly the customer role (when it exists): the same as an event inquiry, and never the developer role, even for a join request |
| Tickets.OverwriteRoleAsWritten | HacksterBot/modules/tickets/__init__.py:1397-1413 | the staff role the channel is opened to is a set, existing role that the ticket also mentions; a BOTH ticket opens it to none |
| Tickets.ChannelOverwritesAsWritten | HacksterBot/modules/tickets/__init__.py:1388-1415 | the channel is hidden from everyone, visible to the bot and open to the member; a staff role is added only when the ticket's role maps to it |
| Tickets.NotifiedRoles | HacksterBot/modules/tickets/__init__.py:1417-1445 | only existing roles are mentioned, and for a join request both staff roles that exist |
| Tickets.Mentions | HacksterBot/modules/tickets/__init__.py:1445 | one mention per role, in order |
| Tickets.NotifyText | HacksterBot/modules/tickets/__init__.py:1417-1445 | the text is empty exactly when no role is mentioned |
| Tickets.BothTicketStaffLockedOut | HacksterBot/modules/tickets/__init__.py:1399-1404 | as written, a join request pings the customer staff in a channel their role cannot read |
| Tickets.OverwriteRoles | HacksterBot/modules/tickets/__init__.py:1406-1413 | the staff roles to open the channel to are exactly the mentioned ones with an id |
| Tickets.AddStaff | HacksterBot/modules/tickets/__init__.py:1406-1413 | the given staff roles get staff rights and every other overwrite is unchanged |
| Tickets.ChannelOverwrites | HacksterBot/modules/tickets/__init__.py:1388-1415 | as intended: hidden from everyone, visible to the bot, open to the member, and a staff role is in the channel exactly when it is mentioned |
| Tickets.OverwritesAgreeOffBoth | HacksterBot/modules/tickets/__init__.py:1399-1404 | for the customer and developer roles the intended overwrites are those the source builds |
| FaqHelper.TagsToBreaks | HacksterBot/modules/faq_helper/__init__.py:167 | text without tags is unchanged, and replacing tags never adds a '>' nor lengthens the text |
| FaqHelper.TagsToBreaksNoTag | HacksterBot/modules/faq_helper/__init__.py:167 | no tag is left after the replacement |
| FaqHelper.NonBlankLines | HacksterBot/modules/faq_helper/__init__.py:169 | every line the parser sees is non-blank and stripped |
| FaqHelper.QuestionLine | HacksterBot/modules/faq_helper/__init__.py:176-181 | a line "Q: " and one non-space character is a question line whose question is that character |
| FaqHelper.AnswerLine | HacksterBot/modules/faq_helper/__init__.py:182-183 | a line "A: " and one non-space character is an answer line, not a question line, whose answer text is that character |
| FaqHelper.Flushed | HacksterBot/modules/faq_helper/__init__.py:178-180 | closing the open question adds exactly one pair, and nothing when no question is open |
| FaqHelper.Step | HacksterBot/modules/faq_helper/__init__.py:175-185 | a question line opens that question with no answer yet; any other line leaves the pairs and the open question as they were |
| FaqHelper.PairsAsWritten | HacksterBot/modules/faq_helper/__init__.py:165-188 | as written, the pairs have the same questions as meant and the same answers except possibly the first |
| FaqHelper.RunShadows | HacksterBot/modules/faq_helper/__init__.py:174-187 | line by line, the loop as written keeps the same open question as meant, and its pairs and answer parts differ only while the first question is open |
| FaqHelper.LeadingAnswerKept | HacksterBot/modules/faq_helper/__init__.py:174-185 | as written, an answer line before the first question becomes that question's answer; as intended it is dropped |
| FaqHelper.PreambleIgnored | HacksterBot/modules/faq_helper/__init__.py:174-187 | lines before the first question line do not change the pairs |
| FaqHelper.PairsCountQuestions | HacksterBot/modules/faq_helper/__init__.py:174-187 | there is exactly one pair per question line |
| FaqHelper.PairsFromQuestionLines | HacksterBot/modules/faq_helper/__init__.py:176-181 | every pair's question is the text of some question line |
| FaqHelper.Deduped | HacksterBot/modules/faq_helper/__init__.py:190-199 | no pair occurs twice, and the pairs are exactly the stripped input pairs |
| FaqHelper.DedupedStripped | HacksterBot/modules/faq_helper/__init__.py:190-199 | every component of the result is stripped |
| FaqHelper.DedupedIdempotent | HacksterBot/modules/faq_helper/__init__.py:190-199 | deduplicating twice is deduplicating once |
| FaqHelper.DedupePairs | HacksterBot/modules/faq_helper/__init__.py:190-199 | the seen-set loop computes the deduplicated pairs |
| FaqHelper.ParseTextPairs | HacksterBot/modules/faq_helper/__init__.py:165-188 | the page's pairs are the deduplicated pairs of its question and answer lines |
| FaqHelper.FirstMatch | HacksterBot/modules/faq_helper/__init__.py:385-388 | the first pair whose question matches, none before it matching |
| FaqHelper.FallbackContains | HacksterBot/modules/faq_helper/__init__.py:384-389 | no pick exactly when no question matches; otherwise the first matching pair |
| FaqHelper.VerbatimQuestionFound | HacksterBot/modules/faq_helper/__init__.py:384-389 | asking a non-empty FAQ question verbatim, in any letter case, finds a pair |
| FaqHelper.AiItems | HacksterBot/modules/faq_helper/__init__.py:351-354 | at most 50 pairs reach the AI, each a prefix of its pair cut to 300 and 600 characters |
| FaqHelper.JsonBlock | HacksterBot/modules/faq_helper/__init__.py:373-375 | a found block starts with '{', ends with '}' and occurs in the reply |
| FaqHelper.JsonBlockFound | HacksterBot/modules/faq_helper/__init__.py:373-375 | a block is found exactly when the reply ends in '}' (or '}' and a newline) with a '{' before it |
| FaqHelper.SemanticPickNeedsMatch | HacksterBot/modules/faq_helper/__init__.py:346-382 | with an agent, a pick comes only from a reply whose JSON block parses with a true "match", and is its "q" and "a" |
| FaqHelper.EncodeDoneId | HacksterBot/modules/faq_helper/__init__.py:343 | the button id starts with "faq_done:" |
| FaqHelper.DecodeDoneId | HacksterBot/modules/faq_helper/__init__.py:406-413 | a wrong prefix and a field count other than four are each recognised exactly |
| FaqHelper.DoneIdRoundTrip | HacksterBot/modules/faq_helper/__init__.py:406-416 | decoding the id built for a thread, message and role gives those three ids back |
| FaqHelper.MarkDoneExactly | HacksterBot/modules/faq_helper/__init__.py:403-446 | a thread is marked done exactly when the clicker is known, is in a thread with a parent, and holds the staff role or asked the question |
| FaqHelper.MarkDoneNeedsStaffOrAuthor | HacksterBot/modules/faq_helper/__init__.py:442-446 | whatever the button says, only the staff role or the asker marks a thread done |
| FaqThreads.NotionId | HacksterBot/modules/faq/__init__.py:151-153 | the id has no '-', ends the raw id or URL, and is the raw value itself when that has no '-' |
| FaqThreads.NotionIdIdempotent | HacksterBot/modules/faq/__init__.py:153 | normalising an id twice is normalising it once |
| FaqThreads.ParseItem | HacksterBot/modules/faq/__init__.py:151-160 | an entry yields an event exactly when both its ids are integers, with its page id normalised |
| FaqThreads.Register | HacksterBot/modules/faq/__init__.py:161-166 | an event is registered under its question channel, with its FAQ database under its event id, only when that channel is non-zero; otherwise nothing changes |
| FaqThreads.LoadItemsWellKeyed | HacksterBot/modules/faq/__init__.py:150-166 | after loading, every event is keyed by its own non-zero question channel |
| FaqThreads.LoadItemsRegisters | HacksterBot/modules/faq/__init__.py:150-166 | when every entry has both its question-channel and staff-role ids, a channel is registered exactly when it was before or it is non-zero and some entry names it as its question channel |
| FaqThreads.ThreadNameShape | HacksterBot/modules/faq/__init__.py:196-204 | the thread name is the event prefix and a prefix of the question's first line, fits in 100 characters when the prefix leaves room, and keeps a question that fits whole |
| FaqThreads.KeptOrManual | HacksterBot/modules/faq/__init__.py:78 | the resolution type is never missing or empty, and a set one is kept |
| FaqThreads.ResolveStep | HacksterBot/modules/faq/__init__.py:55-79 | a question is resolved exactly when the presser is allowed and it exists unresolved, stamping time, resolver and type; otherwise nothing changes |
| FaqThreads.ResolveOnce | HacksterBot/modules/faq/__init__.py:70-72 | a question is resolved at most once: a second press is refused and changes nothing |
| FaqThreads.FaqResolutionKept | HacksterBot/modules/faq/__init__.py:78 | a question answered from the FAQ keeps "faq" as its resolution type when marked done |
| FaqThreads.PersistentViews | HacksterBot/modules/faq/__init__.py:170-181 | a button is re-registered exactly for each unresolved question in a configured channel, with that event's staff role and the asker |
| FaqThreads.FaqModule.constructor | HacksterBot/modules/faq/__init__.py:121-124 | no events, databases or questions at start |
| FaqThreads.FaqModule.LoadEventConfig | HacksterBot/modules/faq/__init__.py:142-168 | the registry becomes the load of the entries in order, stopping at the first entry with a non-integer id, and stays keyed by channel |
| FaqThreads.FaqModule.OnMessage | HacksterBot/modules/faq/__init__.py:183-258 | a person's message in a configured channel gets the thread name and a new record, marked answered from the FAQ when matched; anything else is ignored and stores nothing |
| FaqThreads.FaqModule.Resolve | HacksterBot/modules/faq/__init__.py:53-79 | the button's effect on the records is the resolve step for a presser with the staff role or who asked |
| NotionFaq.GetText | HacksterBot/modules/faq/services/notion_faq.py:25-34 | text comes only from a title or rich-text property whose parts can all be read |
| NotionFaq.GetTextParts | HacksterBot/modules/faq/services/notion_faq.py:28-31 | one part reads as itself, two parts as both joined by one space |
| NotionFaq.Field | HacksterBot/modules/faq/services/notion_faq.py:40-42 | the English-named property's text when it is non-empty, else the Chinese-named one's |
| NotionFaq.ExtractItemsAsWritten | HacksterBot/modules/faq/services/notion_faq.py:36-45 | as written, at most one item per page, and at least as many items as the evidently meant version keeps |
| NotionFaq.BlankQuestionKept | HacksterBot/modules/faq/services/notion_faq.py:43-44 | as written, a question reading as one space passes the test and gives an item with an empty question; as intended the page is skipped |
| NotionFaq.ExtractItems | HacksterBot/modules/faq/services/notion_faq.py:36-45 | as intended, no more items than pages, each with a non-empty question and answer |
| NotionFaq.ExtractItemsExact | HacksterBot/modules/faq/services/notion_faq.py:36-45 | exactly the pages with a non-blank question and answer become items, in order |
| NotionFaq.AllFaqs | HacksterBot/modules/faq/services/notion_faq.py:47-54 | no client, no database id or a failed query gives no items |
| NotionFaq.Listing | HacksterBot/modules/faq/services/notion_faq.py:61-64 | item i is listed as "{i+1}. Q: {question}" and its answer on the next line |
| NotionFaq.FindMatchingFaq | HacksterBot/modules/faq/services/notion_faq.py:56-95 | a match is always one of the items |
| NotionFaq.ReplyNumber | HacksterBot/modules/faq/services/notion_faq.py:83-95 | a reply reading as a number picks that item when it is between 1 and the number of items, and nothing otherwise |
| NotionFaq.ReplyPicksListed | HacksterBot/modules/faq/services/notion_faq.py:62-88 | answering n picks the item listed under number n |
| NotionFaq.OutOfRangeReplyIgnored | HacksterBot/modules/faq/services/notion_faq.py:87-95 | the answer 0, or a number past the list, gives no match |
| BridgeTime.ResolveMentions | HacksterBot/modules/bridge_time/__init__.py:57-64 | only mentioned ids that are guild members are kept, and every such id is kept |
| BridgeTime.Responders | HacksterBot/modules/bridge_time/__init__.py:117 | one replying user per reply, in reply order |
| BridgeTime.PendingIds | HacksterBot/modules/bridge_time/__init__.py:135 | the pending participants are exactly those without a reply |
| BridgeTime.PendingEmptyIffAllResponded | HacksterBot/modules/bridge_time/__init__.py:117-118 | nobody is pending exactly when every participant has replied |
| BridgeTime.NewSession | HacksterBot/modules/bridge_time/__init__.py:80-86 | a new session holds the resolved participants, no reply, is not completed and satisfies the session invariant |
| BridgeTime.ResponseIndex | HacksterBot/modules/bridge_time/__init__.py:103 | a found reply belongs to the user; none is found only when the user has not replied |
| BridgeTime.RespondersAppend | HacksterBot/modules/bridge_time/__init__.py:114 | appending replies appends their users |
| BridgeTime.UpsertedReplies | HacksterBot/modules/bridge_time/__init__.py:103-114 | after a reply each user still has at most one reply, the replying users are the earlier ones plus this user, whose reply holds the new content, and every other reply is kept |
| BridgeTime.RepliedKeepsSessionOk | HacksterBot/modules/bridge_time/__init__.py:100-121 | a participant's reply keeps the session invariant (one reply per participant, only participants, completed exactly when everyone replied) and records the new content |
| BridgeTime.OutsiderIgnored | HacksterBot/modules/bridge_time/__init__.py:101-102 | a reply from someone who is not a participant changes nothing |
| BridgeTime.FirstOpenFor | HacksterBot/modules/bridge_time/__init__.py:95-98 | the first session in table order that is open and was posted as the replied-to message, or none when there is no such session |
| BridgeTime.RemoveKey | HacksterBot/modules/bridge_time/__init__.py:188-189 | the table order without the key, still without repeats |
| BridgeTime.BridgeTimeModule.constructor | HacksterBot/modules/bridge_time/__init__.py:18-21 | no active sessions at start |
| BridgeTime.BridgeTimeModule.CreateSession | HacksterBot/modules/bridge_time/__init__.py:66-90 | a session is created exactly when some mention resolves to a member, stored under its id at the end of the table; otherwise nothing is stored |
| BridgeTime.BridgeTimeModule.OnMessage | HacksterBot/modules/bridge_time/__init__.py:92-98 | a person's reply to an open session's message goes to the first such session: the session takes the reply, and when that completes it and the result is posted it leaves the table and the order; any other message changes nothing |
| BridgeTime.BridgeTimeModule.HandleResponse | HacksterBot/modules/bridge_time/__init__.py:100-123 | the session takes the reply; when that completes it and the survey message can be fetched, the result is posted and the session leaves the table and the order; otherwise it stays with the reply recorded |
| BridgeTime.BridgeTimeModule.SendResult | HacksterBot/modules/bridge_time/__init__.py:171-189 | once the result is posted the session leaves the table and only it leaves the order; when its message cannot be fetched nothing changes |
| TimeParser.PeriodHours | HacksterBot/modules/meetings/agents/time_parser.py:212-217 | the period words stand for 9, 9, 12, 14, 17 and 19 o'clock |
| TimeParser.HourAt | HacksterBot/modules/meetings/agents/time_parser.py:171 | a captured hour is below 100 and the match, hour mark included, ends inside the text |
| TimeParser.MinuteAt | HacksterBot/modules/meetings/agents/time_parser.py:171 | a captured minute is below 100 |
| TimeParser.PeriodAt | HacksterBot/modules/meetings/agents/time_parser.py:172 | a captured period is one of the six period words and occurs at that position |
| TimeParser.MatchAt | HacksterBot/modules/meetings/agents/time_parser.py:169-181 | a match starts with the pattern's day word, and captures an hour (and maybe a minute) below 100 for a clock pattern or a period word for a period pattern |
| TimeParser.Search | HacksterBot/modules/meetings/agents/time_parser.py:184 | the match at the leftmost position that has one; none exactly when no position matches |
| TimeParser.RollForward | HacksterBot/modules/meetings/agents/time_parser.py:237-242 | a time of today not after now is moved to tomorrow, so the result is within the next 24 hours |
| TimeParser.Apply | HacksterBot/modules/meetings/agents/time_parser.py:193-313 | a parser answers exactly when the hour is at most 23 and the minute at most 59, with an offset-less time, 90 for a clock time or 85 for a period, unambiguous and without error |
| TimeParser.FirstSuccess | HacksterBot/modules/meetings/agents/time_parser.py:183-189 | the first pattern that matches and whose parser does not raise |
| TimeParser.TryPatterns | HacksterBot/modules/meetings/agents/time_parser.py:163-191 | no result exactly when no pattern succeeds; otherwise the parse of the first succeeding pattern's leftmost match |
| TimeParser.PatternResultAccepted | HacksterBot/modules/meetings/agents/time_parser.py:122-129 | a pattern result always clears the 70 threshold |
| TimeParser.PatternTimes | HacksterBot/modules/meetings/agents/time_parser.py:193-313 | a "today" time lies within the next 24 hours; "tomorrow" and "the day after" fall on the day one or two days after today |
| TimeParser.NextAfter | HacksterBot/modules/meetings/agents/time_parser.py:349-354 | the earliest time a whole number of days after the given one that is after now |
| TimeParser.AdvanceToFuture | HacksterBot/modules/meetings/agents/time_parser.py:349-354 | the add-a-day loop ends on that earliest future time |
| TimeParser.NextAfterUnique | HacksterBot/modules/meetings/agents/time_parser.py:349-354 | only one time a whole number of days on is after now with the day before it not |
| TimeParser.Checked | HacksterBot/modules/meetings/agents/time_parser.py:347-365 | a checked time is moved to the earliest future time on the same clock |
| TimeParser.CheckFailed | HacksterBot/modules/meetings/agents/time_parser.py:367-371 | a failed check has confidence 0 and an error |
| TimeParser.ValidateAsWritten | HacksterBot/modules/meetings/agents/time_parser.py:338-371 | as written, a time without an offset fails with confidence 0 and an error; every other answer is validated as meant |
| TimeParser.NaiveAnswerRejected | HacksterBot/modules/meetings/agents/time_parser.py:345-350 | as written, an answer without an offset, the format the AI is told to use, fails the check with confidence 0; as intended it is moved after now |
| TimeParser.Validate | HacksterBot/modules/meetings/agents/time_parser.py:338-371 | as intended: no time is passed through, an unreadable time fails with confidence 0, and a readable one ends after now with its error kept |
| TimeParser.FarFuturePenalty | HacksterBot/modules/meetings/agents/time_parser.py:359-363 | more than 365 days ahead lowers the confidence by 30, not below 0, and marks the answer ambiguous; otherwise both are kept |
| TimeParser.ValidateParsedTime | HacksterBot/modules/meetings/agents/time_parser.py:338-371 | the imperative check computes the intended validation |
| TimeParser.Failure | HacksterBot/modules/meetings/agents/time_parser.py:154-161 | the failure result has no time, confidence 0 and is ambiguous |
| TimeParser.ParseTime | HacksterBot/modules/meetings/agents/time_parser.py:120-161 | with no pattern result and no AI answer the result is the failure carrying the error |
| TimeParser.AiOnlyWithoutPattern | HacksterBot/modules/meetings/agents/time_parser.py:120-143 | a pattern result is returned as is, and the AI's checked answer is used only when no pattern succeeds |
| MeetingTimeAdvisor.DisplayName | HacksterBot/modules/meetings/agents/meeting_time_advisor.py:131 | the name is never empty, and is the stored name whenever that is non-empty |
| MeetingTimeAdvisor.Offers | HacksterBot/modules/meetings/agents/meeting_time_advisor.py:126-133 | one entry per attendee who declined and offered times, each with a name and non-empty times, and every such attendee appears |
| MeetingTimeAdvisor.OffersFromDecliners | HacksterBot/modules/meetings/agents/meeting_time_advisor.py:126-133 | every entry comes from an attendee who declined and offered times |
| MeetingTimeAdvisor.EntriesOkAll | HacksterBot/modules/meetings/agents/meeting_time_advisor.py:217-234 | the loop accepts exactly when every recommendation passes its checks |
| MeetingTimeAdvisor.ValidateRecommendationExact | HacksterBot/modules/meetings/agents/meeting_time_advisor.py:207-240 | the check accepts exactly an object with exactly three recommendations, each an object with datetime, reason and confidence, an ISO 8601 datetime string and a confidence between 1 and 100 |
| MeetingTimeAdvisor.ShapeViolations | HacksterBot/modules/meetings/agents/meeting_time_advisor.py:214-234 | two recommendations, or a confidence of 0, are refused |
| MeetingTimeAdvisor.LastIndexOf | HacksterBot/modules/meetings/agents/meeting_time_advisor.py:182 | the position of the last occurrence of the character, or -1 exactly when it does not occur |
| MeetingTimeAdvisor.BraceBlock | HacksterBot/modules/meetings/agents/meeting_time_advisor.py:182 | a found block starts with '{', ends with '}' and occurs in the reply |
| MeetingTimeAdvisor.WholeObjectTaken | HacksterBot/modules/meetings/agents/meeting_time_advisor.py:182-188 | a reply that is one object text is decoded whole |
| MeetingTimeAdvisor.RecommendTimes | HacksterBot/modules/meetings/agents/meeting_time_advisor.py:108-205 | a recommendation is returned exactly when there is an agent, someone declined with offered times, the reply is non-empty, decodes, and passes the shape check; it is then that well-formed answer |
| MeetingTimeAdvisor.NoDeclinersNoAdvice | HacksterBot/modules/meetings/agents/meeting_time_advisor.py:135-137 | with nobody who declined and offered times there is no recommendation, whatever the AI says |
| MeetingManagement.ShowMeetingInfo | HacksterBot/modules/meetings/services/meeting_manager.py:113-154 | an id that is not 24 characters long is refused before the lookup; details are shown exactly to the organizer and listed attendees of an existing meeting, and the management buttons exactly to the organizer of a scheduled meeting |
| MeetingManagement.CancelRecipients | HacksterBot/modules/meetings/services/meeting_manager.py:238-246 | the members messaged about a cancellation are exactly the attendees who said they would attend |
| MeetingManagement.CancelOnce | HacksterBot/modules/meetings/services/meeting_manager.py:179-187 | a cancelled meeting cannot be cancelled again, by anyone |
| MeetingManagement.Marked | HacksterBot/modules/meetings/services/meeting_manager.py:322-331 | one marked name per attendee with that status |
| MeetingManagement.MarkedSnoc | HacksterBot/modules/meetings/services/meeting_manager.py:322-331 | one more attendee adds their marked name to their own status's group only |
| MeetingManagement.Group | HacksterBot/modules/meetings/services/meeting_manager.py:333-339 | a group gives one line when it has names and none when it is empty |
| MeetingManagement.AttendeeTextShape | HacksterBot/modules/meetings/services/meeting_manager.py:313-341 | one line per status that occurs, and no line at all exactly when no attendee is attending, pending or not attending |
| MeetingManagement.FormatAttendees | HacksterBot/modules/meetings/services/meeting_manager.py:313-341 | the one-pass loop builds the attendee text: the three groups in order, or the placeholder |
| MeetingManagement.MeetingManager.constructor | HacksterBot/modules/meetings/services/meeting_manager.py:27-30 | the manager starts over the given meetings |
| MeetingManagement.MeetingManager.CancelMeeting | HacksterBot/modules/meetings/services/meeting_manager.py:171-203 | only the organizer of a scheduled meeting can cancel it; a successful save stores it as cancelled at that time, anything else changes nothing, and success is reported exactly when the guard holds, the save succeeds and the reminder service can be set up (a failed deletion of reminders is caught inside and still gives success) |
| MeetingManagement.SortAttendees | HacksterBot/modules/meetings/services/meeting_manager.py:318-331 | the loop over the attendees yields, in order, the marked names of those attending, pending and not attending, as `AttendingNames`, `PendingNames` and `AbsentNames` define them |

## Left out

- Recording time: timestamps are integer ticks of 1/48000 s (one tick per frame), so `time.time()` readings, the 1 ms minimum (48 frames) and the 0.2 s gap (9600 ticks) are exact integers; float rounding of `int(duration * rate)` is not modelled.
- Recording threads and locks: the monitor thread, `user_lock` and the per-tracker locks are modelled only by their sequential effect (one poll = `MonitorPoll`); `time.sleep`, `join(timeout=2.0)` and interleavings are not modelled.
- Recording output: `_write_timeline_to_file`, `convert_pcm_to_mp3`, directory creation, `cleanup` and all logging are file and process I/O and are not modelled; the timeline they would write is the model's result.
- `_fill_gaps_up_to` of the newer tracker is an empty method, so the newer `fill_silence_gaps` has no data effect and is not modelled.
- The older file's own `SynchronizedMultiUserRecorder` is not modelled; only its `UserAudioTracker` and `MeetingRecorder` are.
- MeetingRecorderOld.MeetingRecorder.RecordMeetingAudio: the Discord connection, the voice client and `_stop_and_cleanup` are parameters (`channelFound`, `startFails`, the sequence of human-presence checks); the stored start time is the `now` parameter.
- Recording bots: Discord voice-state events, channel creation, forum posts, thread messages, `asyncio.sleep` and task cancellation are I/O; the model keeps only the meeting-info and forum-thread tables. `user_join_time` rejoin hooks into `recorder.audio_sink` are not modelled (the attribute is never set in the source).
- RecordingPool: `bot.user`, `bot.is_ready()` and `recording_task.done()` are fields of a bot snapshot; creating the `MeetingRecorder` task is modelled as setting a task marker, and a bot without a guild or channel still receives the copied info (as in the source) but no task.
- `get_timestamp_string` in meeting_utils.py reads the clock and formats it with `strftime`; it is not modelled. `generate_meeting_room_name` takes the clock reading as parameters.
- Blackjack: `random.shuffle` is modelled as an arbitrary permutation (`order`, with `multiset(order)` equal to the laid-out cards) given to the constructor and `Reset`; the `Hand` objects are never shared, so they are modelled as sequences inside the game rather than separate objects.
- Blackjack text: `display`, `is_soft`, `__str__`, `get_result_message` and `get_game_display` build Discord text and are not modelled.
- Game statistics: the `GameStatistics` document class is not part of the models this project follows; its fields (games played, won, tied, score, streaks, win rate, last played) are inferred from `record_game_result`. MongoDB is an in-memory map from user to record; `datetime.utcnow()` is the `now` parameter.
- `show_stats`, `show_leaderboard`, the AI opponent's commentary and every embed are Discord I/O and are not modelled.
- Mute manager I/O: the JSON file (`_load_violations`, `_save_violations`), the Discord timeout call, the mute embed and the direct message are I/O; a failed timeout is the `timeoutFails` parameter and the loaded file is the constructor's `saved` parameter. Expiry times are integer seconds instead of ISO strings, so the `Z`/`+00:00` suffix handling in `check_expired_mutes` is not modelled.
- SQLite store: tables are sequences of rows and a map for `users`; SQL, the connection, the lock and `conn.commit()` are not modelled. `CURRENT_TIMESTAMP` (UTC) and `datetime.now()` (local time, used for `expires_at`) are one `now` parameter, so the offset between them is not modelled. `details` is stored as an opaque optional text.
- Document store: MongoEngine queries are scans of in-memory sequences in insertion order; ids are sequential numbers instead of ObjectIds. `get_user_violations` (a sorted, limited read) and `get_top_violators` (an aggregation pipeline) are read-only reports and are not modelled; the exception paths that log and return 0, None, {} or False are not modelled.
- Moderation cog I/O: message deletion, the Discord timeout, embeds, direct messages, channel history for review context, the image-URL regular expression and the URL extraction are Discord or text I/O; the content moderator's and URL checker's answers are parameters (`flagged`, category flags, URL results), and the review call's outcome is the `ReviewCall` parameter. The recording of the violation and mute in the store is modelled by the store classes, not by the cog.
- Moderation queue: the asyncio loop, `asyncio.sleep`, the lock, `uuid4` ids (an `id` parameter) and the task functions are not modelled; a task's run is modelled by calling `Complete` or `Fail` with its outcome. `retry_interval` is stored but never used by the source.
- Moderation review: the agents' prompts and the model calls are not modelled; an agent's outcome is the `AgentReply` parameter. `high_severity_count` and `violation_categories` only feed logging and the prompt, so `process_response` is modelled without them.
- `get_full_guidelines` returns a fixed text and is not modelled; the mute reason is built from it only through the section numbers.
- URL blacklist file: `_load_blacklist`, `_save_blacklist` (atomic rename), `_create_url_hash`, `get_stats`, `close` and the lock are file I/O or bookkeeping and are not modelled; dates are integer seconds, with an unreadable or missing date as None.
- UrlBlacklist.ParseUrl: `urlparse` is modelled for the parts the normalisation uses (scheme, `//` authority, `;params`, query, fragment, the deleted tab and newline characters and the bracket check that raises); port validation and IDNA checks of `urlsplit` are not modelled. Python's `str.lower` is the ASCII lower-casing of the model.
- URL safety checker I/O: the aiohttp session, HTTP requests, `asyncio.sleep` between polls, the semaphore and parallel gathering in `check_urls` are not modelled; each service's answer is a parameter (`Services`), the clock is `now`, and checks of a batch are given as finished outcomes. `extract_urls` takes the regular expression's matches as a parameter.
- UrlSafety.UrlReport: the reported score is not rounded to three decimals, and `last_analysis`, `total_engines` and `provider` keys are not modelled; `{:.2%}` formatting is the `percent` parameter.
- URL unshortener I/O: the aiohttp session, the timeouts, the elapsed time, `close`, and the parallel `asyncio.gather` in `unshorten_urls` are not modelled; each server's answer is a parameter (`head`, `get`), and `_extract_js_redirect`'s finding is part of the answer.
- `unshorten_with_selenium` and `_setup_selenium` are not modelled: a headless browser is outside the model, and its expansion is a parameter of `ChooseExpansion`.
- AI handler: `handle_message`, the classifier, the agents, the search service, `initialize`/`close`, the outer exception message of `get_streaming_response` and the sleeps between retries and parts are not modelled (I/O and foreign services); what each streaming attempt produced is a parameter, and the clock of the rate limit is `now` in whole seconds.
- Invite store queries that only read or delegate — `get_user_invite_stats`, `get_invite_leaderboard`, `get_user_active_invites`, `get_user_tickets`, `get_guild_statistics`, `revoke_invite_tickets`, `set_ticket_system` — are not modelled; they are database queries or calls into the ticket system, with no logic of their own. Exception paths (`raise` after logging, the `{'total_tickets': 0}` fallback) are not modelled.
- InviteStore.FindInviteByUsage: a guild entry without an `inviter_id` is modelled as a missing inviter, and a missing `uses` as 0, as in the source; the `except` fallback is not modelled.
- Invite events: `get_active_event_names`, `get_user_event_summary`, `get_global_settings` and `get_reward_types` only read fields of the loaded file and are not modelled; the file, its JSON and its modification time are parameters (the modification time as an integer), and the award call to the ticket system is its outcome (`awardOk`).
- InviteEvents.Notification: requires a ticket reward to carry an amount; without one the source raises a `KeyError` that nothing catches, which the model does not represent.
- Daily report rendering: matplotlib and scipy drawing, `_generate_simple_chart_event_based`, the leaderboard's database aggregation and embed, `send_daily_report`, `load_report_config` and its getters are not modelled (plotting, database and Discord I/O). The per-day join counts are a parameter (`joinsSince`), the guild's member count is `current`, and the time zone is a fixed UTC offset, so daylight-saving changes are not modelled.
- DailyReport.NextReportTime: states only the window of the result; parse failures are modelled as None, following the `except` path, and `int()`'s acceptance of signs, spaces and '_' is not modelled.
- Welcomed-member stores: `get_member_info`, `close`, the column migration of `init_db` and the `success_rate` percentage of `get_welcome_statistics` are not modelled (plain reads, schema upkeep, a rounded float). Database clocks (`CURRENT_TIMESTAMP`, `datetime('now')`, `utcnow()`) are the single parameter `now` in seconds, and a raising statement is `dbOk == false`.
- The `WelcomedMember` document (HacksterBot/core/models.py:14-35) enters only through its `username` limit of 200 characters; its `welcome_status` choices are the `WelcomeStatus` datatype, and its non-unique (user, guild) index is modelled as the store's own one-record-per-member invariant, which `add_or_update_member` keeps by updating the first match. A `last_retry_at` of None is read as missing, as mongoengine does not store None fields.
- Ticket I/O: the request modal and its log file (`get_user_input_from_filepath`, `check_ticket_channel_exists`), channel creation and edits (`finalize_ticket_creation`, `clear_event_permissions`, `update_channel_for_event`, `close_channel`), transcripts, the panel and close commands, and every view and button are not modelled (Discord and file I/O). The AI's reply is an `Option` parameter, None when the service is missing or raises; the AI prompt text is not modelled.
- Tickets.AnalyzeUserMessage: the keyword lists are kept as the source writes them, including the one-character keyword '前' in the sponsorship rule, which makes many requests fall into sponsorship; lower-casing and stripping are ASCII-only, where Python's are Unicode-wide.
- Tickets.AnalyzeEvent: states that the answer is the no-event pair, an active event or the special event; the order in which the numbered reply, the keyword match and the first event are tried is stated by `NumberedReplyPicks` and `KeywordThenFirst`, for a request outside the photography rule.
- Tickets.NotifiedRoles: does not state the admin-role mention for an unrecognised role name, only that every mention is of an existing role and that a join request mentions both staff roles.
- FAQ helper I/O: `_load_faq_config`, `fetch_pairs`, `_parse_table_pairs` (an HTML table parser), `on_message`, `_process_question_in_thread`, `_build_runtime_view`, the AI prompt and the reaction and message edits of the mark-done button are not modelled (file, HTTP, HTML-library and Discord I/O). The AI's reply is an `Option` parameter and `json.loads` is the parameter `parse`; a reply that parses to something other than an object, on which the source's `.get` raises, is not represented. `splitlines` is modelled as a split at every line boundary it recognises (`BreaksToNewlines` turns each into '\n' first), and `strip` and `lower` as ASCII-only.
- FaqHelper.Deduped: states the membership and uniqueness of the result, not that pairs keep the order of their first occurrence; `DedupePairs` is proved equal to it, which fixes the order.
- FAQ threads I/O: reading `faq_config.json` (a missing file is an empty list of entries, a broken one raises before anything is registered), creating threads, sending embeds and reactions, and the `NotionFAQService` objects are not modelled; the registry keeps each event's FAQ database id in their place. The FAQ search result is the boolean `matched` (a raising search is no match), the new record's id is `newId` and `datetime.utcnow()` is `now`. A Discord error while the thread is created, which the source logs and which stops the handler before the record is saved, is not represented.
- FaqThreads.FaqModule.OnMessage: `strip` is modelled as ASCII-only (the first line is taken after `BreaksToNewlines`, so every line boundary `splitlines` recognises counts).
- FaqThreads.FaqModule.OnMessage: the insert of the record and its later FAQ-match update are one map write, since nothing in the model observes the record in between.
- Notion FAQ I/O: the Notion client and its database query, the AI agent's creation and its streamed reply, the prompt text and the debugging output are not modelled. The query's pages are an `Option` parameter (None when the query raises), the agent's presence is `hasAgent` and its concatenated reply an `Option` (None when the stream raises).
- NotionFaq.FindMatchingFaq: `int()` is modelled on an optional '-' and ASCII digits; its acceptance of '+', '_' between digits and non-ASCII digits is not modelled, and `strip` is ASCII-only.
- Bridge-time I/O: the slash command, the AI agent and its prompt, `_analyze_session`'s JSON reading, the embeds of `_update_embed` and `_send_result` and the database saves are not modelled. `_load_sessions` is not modelled: the table starts empty. Mentioned ids arrive already extracted from the `<@id>` markup, the guild's members are a set, and `datetime.utcnow()` is `now`. Whether the survey message could be fetched is the boolean `messageFetched`.
- Time parser I/O: the AI agent's setup and system prompt, `_parse_with_ai`'s call and the parse log are not modelled. The AI's answer is an `Option` parameter (None when the agent is missing or raises, with the error text `aiError`) and `datetime.now` is `now`, in wall-clock seconds of the configured zone. `fromisoformat` is represented by what it yields (no time, unreadable, with or without an offset); a time with an offset is taken as wall-clock seconds of the bot's zone, and daylight-saving changes of the zone are not modelled. `\d` and `\s` are ASCII-only here.
- TimeParser.Apply: the `interpreted_as` text is computed but nothing is stated about it.
- Meeting time advisor I/O: the agent's initialisation and system prompt, the prompt text built from the meeting and the logging are not modelled. The agent's presence is `hasAgent`, its reply an `Option` (None when the call raises or returns nothing), `json.loads` the parameter `decode` and `fromisoformat`'s acceptance the parameter `isIso`. JSON numbers are integers or reals, so a NaN confidence, which the source's comparisons let through, is not represented; `true` as a confidence passes because Python counts a bool as an int, and the model keeps that.
- Meeting manager I/O: `show_user_meetings` (two database queries rendered as an embed), `_create_meeting_info_embed`, `_get_status_color`, `_notify_meeting_cancelled`'s messages and the button views are not modelled (Discord output). Who receives the cancellation message is `CancelRecipients`; guild display names are a map; `get_current_time_gmt8()` is `now`. `get_meeting_by_id` is the lookup in the `meetings` map, so the invalid-id exception it turns into None is a missing key. Setting up the reminder service is the outcome `remindersOk` (its deletions catch their own errors), and a failing save is `saveOk == false`.
- The `BridgeSession`, `Meeting`, `MeetingAttendee` and `FAQQuestion` documents are not part of this model's source; their fields are taken from how the modules read and write them, and `get_response` is taken to return the user's only reply, which the session invariant guarantees.
- MeetingRecorder.BuildCompleteTimeline and MeetingRecorder.PresenceIntervalsLimited are module-level methods that take a tracker's segments, history and meeting start as arguments, not methods of `UserAudioTracker`; `StopRecording` passes them one tracker's fields, so the reads under the tracker's lock are one step.
- MeetingRecorder.IntervalsLimitedFacts and MeetingRecorderOld.IntervalsOldFacts require a history that opens with a mark at the meeting start, which every constructor seeds; for an empty history only the single present interval of `IntervalsLimited`/`IntervalsOld` is stated.
- RecordingPool.RecordingManager.ScheduleMeeting: `dict(origin_info)` (recording_manager.py:100) is a shallow copy, so the origin bot and the chosen bot share the same roster set; the model gives each bot its own value, and this aliasing (a later join seen by both bots) is not modelled.
- RecordingPool.RecordingManager.StopRecording: `task.cancel()` (recording_manager.py:169) only requests cancellation, and `task.done()` stays false until the event loop runs it; the model marks the task finished at once, so a second stop request before the loop runs would find no running task in the model but would cancel again in the source.
- ModerationReview: `lower()`, `strip()` and the `\d`/`\s` classes of the regular expressions (moderation_review.py:206-274) are modelled for ASCII only; Python's are Unicode-wide, and a Unicode `lower()` that changes the text's length would shift the index `find` returns on the original text, which the model does not represent.
- Tickets.ChannelOverwrites: each permission of an `Overwrite` is a boolean, so an explicit deny and a permission left unset (inherited) are both `false`.
- InviteEvents.ProcessReward: an `award_ticket` call that raises is folded into `awardOk == false` (`AwardFailed`); the source's `except` (event_manager.py:204-210) then reports the exception's text rather than the failed-award message.
- MeetingRecorderOld.UserAudioTracker.BuildCompleteTimeline: `finalize_recording` (meeting_recorder_old.py:363-388) is not modelled as an operation: its early returns when there are no segments or no output directory, and the file write, are left out (file I/O); the model gives the timeline it would write.

## Findings

| source | as written | input that shows it | evidently intended | confidence | as-written member | corrected member |
|---|---|---|---|---|---|---|
| HacksterBot/modules/recording/services/meeting_recorder.py:338 | silence is `b'\\x00' * n`, a four-byte pattern of backslash, `x`, `0`, `0` (same at lines 352, 365 and 375, and in meeting_recorder_old.py at line 452) | any gap of one or more frames: the padding is four times the frame bytes and none of its bytes is zero | `n` zero bytes | high, not executed | MeetingRecorder.SilenceAsWrittenIsFourTimesTooLong | MeetingRecorder.SilencePcm |
| HacksterBot/modules/blackjack/services/game_manager.py:184 | `await stats.save()` on a document whose `save` is synchronous: awaiting its result, which is not awaitable, raises, so every recorded game ends in the error branch after the statistics were written | any finished game | save without `await`, then log the result | medium, not executed; the document class is not part of this model, and a synchronous `save` is inferred from its use | GameManagement.GameManager.RecordGameResultAsWritten | GameManagement.GameManager.RecordGameResult |
| HacksterBot/modules/ai/handler.py:227-233 | a sentence longer than the limit is moved into `current` whole when `current` is not empty, and the word split is never reached for it | limit 2, text `a。bbb。`: parts `a。` and the four-character `bbb。` | every part at most the limit | high, not executed | AiHandler.SplitOverflowExample | AiHandler.SplitPartsBoundedFit |
| HacksterBot/modules/tickets/__init__.py:1397-1404 | a `BOTH` ticket matches none of the role branches, so no staff role can see the channel, while the customer and developer roles are still mentioned in it | `allow_role` = `BOTH` | both staff roles can see a `BOTH` ticket | medium, not executed | Tickets.BothTicketStaffLockedOut | Tickets.ChannelOverwrites |
| HacksterBot/modules/faq_helper/__init__.py:174-185 | an answer line before the first question is collected and later attached to that question | lines `A: x`, `Q: y`: the pair (`y`, `x`) | text before the first question is ignored | high, not executed | FaqHelper.LeadingAnswerKept | FaqHelper.PreambleIgnored |
| HacksterBot/modules/faq/services/notion_faq.py:43-44 | the non-empty test is made before stripping | a page whose question is a single space and whose answer is non-empty: an item with an empty question | pages with a blank question or answer are skipped | high, not executed | NotionFaq.BlankQuestionKept | NotionFaq.ExtractItems |
| HacksterBot/modules/meetings/agents/time_parser.py:345-350 | `fromisoformat` of the AI's offset-less answer gives a naive time, and comparing it with the aware `now` raises, so confidence drops to 0 | `2025-01-20T14:00:00`, the format the AI is asked to use | the naive time is read in the bot's time zone | medium, not executed | TimeParser.NaiveAnswerRejected | TimeParser.Validate |
| HacksterBot/modules/moderation/services/url_safety.py:366-367 | the membership test uses the category as given but the list stores it upper-cased, so repeats are not caught | categories `spam`, `spam`: `SPAM`, `SPAM` | each threat type once | high, not executed | UrlSafety.CollectAsWrittenRepeats | UrlSafety.CollectThreatTypes |
