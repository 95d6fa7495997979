# A verified model of rh_audio

rh_audio plays short audio samples on small devices. A client opens an *instance* for a sample, and asks for
it to be played, looped or stopped from any thread. Commands travel over a pipe to one io thread, which
keeps a table of *channels* and fills the audio device's DMA periods from the samples on them. A sample from
a PROM is decoded from 4-bit ADPCM as it is read, packet by packet. This project models three parts and
proves what they are for.

**Samples and periods** (`pcm`, `adpcm`, `nibbles`, `s5prom`, `chunks`, `reading`, `transfer`, `channel`, `api`). The
decoder object walks lazily through packets that the PROM library cuts as it likes, serves reads of any
size, skips redundant rewinds and writes or mixes big-endian words, at 16 kHz or resampled to 48 kHz. It is
proved against the whole sample decoded in one go, and that against the code told nibble by nibble in plain
numbers. On top of it, the loop that moves one channel into a
period, and the pass over all channels, are proved against a closed form: each slot of the period comes to
hold, modulo 2^16, the sum of what the sounding channels are due, looping channels going round their streams
and one-shot ones followed by silence. With up to ten channels sounding no sum wraps. The transfer loop ends
exactly from the states that `Transfer.Ends` describes: a looping sample must not be empty and the period
must have an even number of frames, except that the silence after a one-shot sample's end completes a period
of any length. From every other state it runs for ever, which `TransferTurns` proves of the objects and
`LoopEmptySample` shows to happen.

**Commands, threads and references** (`events`, `channel_table`, `commands`, `api`, `pipe`, `protocol`,
`guarantees`, `closing`, `progress`, `turns`, `refinement`, `playback`, `performance`, `shutdown`). What a
command or a sample's end makes of the table of channels is a function, `Commands.Effect` or
`ChannelTable.End`, which the objects of `api.dfy` are proved to compute and the state machine of
`protocol.dfy` takes its steps by. `refinement.dfy` proves that the objects follow the machine: setup,
opening, taking a reference, closing, emptying the command pipe and filling a period each take objects that
mirror a state of the machine to objects that mirror the next, so that what is proved of the machine's runs
holds of theirs. Where each sample stands in its stream is followed as well: over any run, what is heard of a
sample from a start to the next stop is its stream from the first output, gapless and cyclic when looping;
each period put out is the sum of what is heard in it; and `Performance.Perform` puts whole runs of the
objects through it. The machine has any number of threads, instances, channels and messages; taking a
reference, writing a message, raising the sync counter, taking a message, executing it and giving its
reference up are separate steps. Proved of every run: the sync barrier, that a sample's count is what refers
to it and that it is freed once and exactly when nothing does, that no step touches a freed sample, what a
shutdown frees, that starts and stops alternate and the playing flag is right, and exactly when closing an
instance is safe, in terms of what a client can ask before it closes. Proved also is what can always still be
done: a command written arrives, calls complete and take effect, counters come down to zero, and a shutdown
closes all channels, on the objects too, and frees every closed sample that no command left behind names.
Where the code holds a property only under a condition, the condition is proved to be exact.

**Buffers** (`bucket`, `bucket_history`, `buffer_queue`, `player`). The growable bucket behind the channel
table, the ring of buffers of the buffered output, and the loop that loads it.

Choices made in the model:

- Samples, channels, the bucket, the ring and the player are classes whose methods follow the code. The
  decoder's `struct frame` is part of the sample by value, and is a value here too.
- `esprom_sample_getbuffer` and the sample read by the loader are oracles: they choose packet sizes and
  read sizes freely within what they promise.
- A slot of a period is two bytes in address order. The host's byte order is a parameter, and the macros for
  both orders are modelled.
- A sample whose reference count is zero is the model's freed sample. `Valid` requires the count to be
  positive, so every use of a sample is checked to be of one that has not been freed.
- `src/bucket.c:101` passes `n_outputs + extra * sizeof(void*)` to `realloc`. The model has the
  `n_outputs + extra` slots that the rest of the function goes by.
- `src/bucket.c:168-169` leaves a stale copy in the last slot when an item other than the last is taken out
  of a full bucket. The model keeps this. `RemoveDeletes` says exactly when the tail stays NULL,
  `RemoveActsAsList` exactly when a removal acts as one on a list, `FullRemovalBlocksAdd` that the slot is
  lost to later additions, and `TidyExactly` which histories of additions, removals and resets keep the
  bucket a list; `StaleCopyIsFound` is one that does not.
- A buffer that is no multiple of a frame: the last read into it asks for no frames, gets none, and
  `src/aout/OpenSLES/update.c:97-112` takes that for the end of the sample. `Load` says that every read asks
  for some if frames divide the buffers, and that otherwise one call loads one buffer at most.
- An empty sample: the early return of `_impl_reset` does not clear the at-end flag that a failed read has
  set since the rewind. `Sample.Reset` states this, `StoppedMeansRewound` that it concerns empty samples
  only, and `EndsExactly` that looping an empty sample never ends.
- A critical section counts as one step and a wait as a test that passes or not.

## Model

The first 42 rows are the main results; the rows after them are the steps they rest on, module by module.

| member | source | states |
|---|---|---|
| EmbeddedApi.Api.MixPeriod | src/aout/embedded/embedded_api.c:494-519 | every slot of the period holds the sum modulo 2^16 of what the sounding channels were due, silence if none sounded; each channel goes on from where it should or has ended; samples that ended have been told so, and no reference or event is otherwise different |
| EmbeddedApi.Api.TenChannelsNeverWrap | src/aout/embedded/embedded_api.c:494-511 | with up to ten channels sounding, each slot read as a signed number is the exact sum |
| Nibbles.StreamIsTenths | src/asmp/i_s5prom.c:237-337 | output k of the 16 kHz stream is a tenth, rounded toward zero, of the signal after nibble k, the upper nibble of each byte first |
| Nibbles.ResampledIsTenths | src/asmp/i_s5prom.c:237-390 | output p of the 48 kHz stream is a tenth of the signal after nibble p / 3 |
| S5Prom.Sample.DeAdpcm | src/asmp/i_s5prom.c:233-409 | a read or mix of any size puts the next outputs of the stream in the period: all that was asked for, save an odd one, or what was left of the packet in hand; a packet is fetched when nothing was left of the last, and only then; the end is flagged when the whole stream had been put out before, and only then |
| Chunks.ShortOncePerPacket | src/asmp/i_s5prom.c:253-258 | before the end no packet cuts more than one read short |
| Reading.ReadAll | src/asmp/i_s5prom.c:173-409 | on the object: whatever the packets and the sizes asked for, the words put in memory are a prefix of the sample decoded in one go; all of it once the end is flagged, and after enough requests of two or more |
| Reading.ReadTwice | src/asmp/i_s5prom.c:173-409 | two samples with the same data, read by different requests, cut differently and on hosts of either byte order, put the same words in memory |
| Adpcm.ResampledRepeatsThrice | src/asmp/i_s5prom.c:343-390 | the 48 kHz stream is the 16 kHz stream with every sample three times |
| Adpcm.OutputBounds | src/asmp/i_s5prom.c:335-337 | every output of every sample lies in [-3276, 3276] |
| Channels.TransferChannel | src/aout/embedded/embedded_api.c:380-447 | for a voice that fits, the period carries what the channel is due; a one-shot channel is stopped exactly when its sample ends within the period, and other channels stand where they should |
| Transfer.EndsExactly | src/aout/embedded/embedded_api.c:399-446 | the loop is bound to end if and only if the frames left are none, or even with something to loop, or even or more than a one-shot sample has left |
| Channels.TransferTurns | src/aout/embedded/embedded_api.c:399-446 | on the objects: if the voice fits, enough turns of the loop complete the period; if not, frames are missing after any number of turns |
| EmbeddedApi.Api.StoppedMeansRewound | src/aout/embedded/stop.c:14-25 | whatever steps have kept the output valid, a sample that does not sound is at its first byte with the initial codec, and flagged at its end only if empty |
| Guarantees.SyncBarrier | src/rh_audio.c:102-118 | when a thread finds the counter at zero, every message it has written for the instance has been executed |
| Guarantees.BarrierIsExact | src/rh_audio.c:67-118 | the counter is never negative and is zero if and only if no SYNC of the instance is on its way |
| Guarantees.FreedExactlyWhenUnreferenced | src/asmp/i_s5prom.c:428-451 | in every run a sample's count is the number of its referents; it has been freed once if there are none, and never otherwise |
| Guarantees.NoUseAfterFree | src/aout/embedded/embedded_api.c:365-367 | no step of any run touches a freed sample |
| Guarantees.ShutdownFrees | src/aout/embedded/embedded_api.c:635-657 | after shutdown a sample has been freed if and only if its handle is closed and no command naming it was left behind |
| Guarantees.EventDiscipline | src/rh_audio.c:138-157 | an instance's starts and stops alternate, and until the io thread exits its flag says whether a channel plays its sample |
| Guarantees.ChannelDiscipline | src/aout/embedded/embedded_api.c:184-307 | in every run no two channels hold the same sample, and which samples are held follows from the commands executed |
| Closing.CleanClose | src/rh_audio.c:312-328 | an instance closed when what wait tests holds, counter zero and flag down, is never sent another event, whether it was stopped or played to its end |
| Closing.CloseIsSafeExactly | src/rh_audio.c:245-262 | asked before the close, with no thread inside a call and no EXIT on its way: the closed instance is never sent an event if and only if its sync counter is zero and no channel plays its sample towards its end; the flag says whether a channel plays or loops it |
| Closing.SafeExactlyWhenQuiet | src/rh_audio.c:245-262 | in every run, with an EXIT on its way or not, a closed instance is sure never to be sent an event if and only if it is quiet: the messages up to the next EXIT have no event for it and no channel will play its sample to its end |
| Closing.WaitThenClose | src/rh_audio.c:312-328 | wait tests the counter and later the flag, and the close is later still: if nobody begins a call on the instance meanwhile, it is never sent another event |
| Progress.BarrierOpens | src/aout/embedded/embedded_api.c:319-378 | nobody gets stuck: from every state of a run with no EXIT on its way, threads can complete their calls and the io thread its messages, and then every counter is zero |
| Progress.CallTakesEffect | src/rh_audio.c:264-301 | at rest, a call to play, loop or stop, once the io thread has caught up, has changed the table as the command says, sent its events and a SYNC, and left counter and flag right |
| Progress.ShutdownCompletes | src/aout/embedded/embedded_api.c:635-657 | from every state of a run in which the io thread has exited, closing the channels one by one leaves none, and then a sample has been freed if and only if its handle is closed and no command naming it was left behind |
| Progress.AllCanBeFreed | src/aout/embedded/embedded_api.c:635-657 | nothing leaks for good: from every state of a run with no EXIT on its way, completing the calls, closing the handles and shutting down frees every sample |
| Playback.GaplessPlayback | src/aout/embedded/embedded_api.c:494-519 | in every run, with any clients, commands and turns: what has been heard of a sample since its last STARTED is its stream from the first output, without a gap, repeated while it loops, up to where it stands; once silent, it has been stopped or has played to its end and on with silence |
| Playback.PeriodIsHeard | src/aout/embedded/embedded_api.c:494-519 | each period put out is, frame by frame, the sum modulo 2^16 of what has been heard more of all samples, each heard for the whole period or not at all |
| Performance.Perform | src/aout/embedded/embedded_api.c:463-537 | on objects made for it: the periods of any run of clients and main loop hold, word for word, what the model of playback says |
| Refinement.MainLoopTurn | src/aout/embedded/embedded_api.c:463-537 | a turn of the main loop, on objects that mirror the protocol's state and the samples' places, deals with the messages on the pipe and, unless one is an EXIT, fills a period with the sum of the sounding channels' voices, each from where its sample stands; the objects then mirror the state and the places that the turn makes of them |
| Refinement.ProcessCmdPipe | src/aout/embedded/embedded_api.c:319-378 | emptying the pipe takes the objects, and where their samples stand, where the protocol's io thread goes, up to an EXIT |
| Turns.DrainedIsFold | src/aout/embedded/embedded_api.c:319-378 | once the pipe is empty the table is the fold of the commands' effects, events are those of the commands in order, and references change by one a message and one a channel taken or given up |
| Shutdown.CloseAllChannels | src/aout/embedded/embedded_api.c:155-175 | on the objects: closing the channels after an EXIT follows the protocol's steps, clears the slots and leaves each sample with the references the protocol says, none exactly when it is freed |
| Pipe.ReceivesWhatWasSent | src/aout/embedded/embedded_api.c:58-122 | in every run the commands received are a prefix of the commands sent |
| Pipe.NothingOnlyAtBoundary | src/aout/embedded/embedded_api.c:99-118 | a receive that finds the pipe empty returns that there is nothing if and only if everything sent has been received and no byte of a further command written; otherwise it keeps what it has and goes on |
| Pipe.CommandArrives | src/aout/embedded/embedded_api.c:58-122 | in every run, a command sent when none is being written arrives behind all those sent before it; writes and reads are all that it takes |
| BucketHistory.TidyExactly | src/bucket.c:87-177 | a bucket built by additions, removals and resets keeps its tail NULL if and only if no item but the last was taken out while it was full, since the start or since a reset that found every slot NULL; then it is the list the operations make, otherwise it counts too few slots as used |
| BufferQueue.BufferQueue.QueuesAreDisjoint | src/aout/OpenSLES/buffer_queue.c:53-132 | the buffers in flight, filled, being filled and free are all the buffers, each once |
| Player.Player.Load | src/aout/OpenSLES/update.c:57-114 | over any sequence of loads and returns the bytes handed over are the bytes read, in order; it reads exactly when a buffer is free, each time for all the room left, until none is free or a read gives none; all buffers are full except the last when a read gave none; if frames divide the buffers every read asks for some, otherwise one call loads one buffer at most |
| Pcm.WriteSlotIsBigEndian | src/asmp/i_s5prom.c:37-53 | on a host of either byte order, overwriting leaves the sample as a big-endian word |
| Pcm.MixSlotAddsBigEndian | src/asmp/i_s5prom.c:55-56 | on a host of either byte order, mixing adds to the big-endian word modulo 2^16 |
| Adpcm.DecodeNibbleFitsInt32 | src/asmp/i_s5prom.c:284-329 | no intermediate of a decoding step leaves 32 bits, for every state within the clamps |
| Adpcm.SplitJoin | src/asmp/i_s5prom.c:307-309 | splitting a signal in an upper and a lower byte and joining them in the union gives the signal back |
| Adpcm.PairsFollowCodecs | src/asmp/i_s5prom.c:286-337 | the two samples of a byte come from the codec as the bytes before have left it |
| Adpcm.SpreadAt | src/asmp/i_s5prom.c:343-390 | each byte contributes its two or six outputs at its place in the stream |
| Adpcm.ScoreIsGenuine | src/asmp/i_s5prom.c:278-401 | a sample decoded in one go has the codec states, sample pairs and stream that proofs refer to by position |
| Adpcm.GenuineIsStream | src/asmp/i_s5prom.c:278-401 | those positions determine the one-shot decode: nothing else satisfies them |
| Nibbles.NibbleMoves | src/asmp/i_s5prom.c:286-305 | a nibble moves the signal by (2 (n mod 8) + 1) eighths of the step, up exactly if n < 8, and scales the step by 230, 307, 409, 512 or 614 over 256; both are clamped |
| Nibbles.OutputIsTenth | src/asmp/i_s5prom.c:335-337 | an output has the sign of its signal, or is zero, and is a tenth of it rounded toward zero |
| Nibbles.CodecsAfter | src/asmp/i_s5prom.c:284-332 | the codec before byte n has taken on the 2 n nibbles before it |
| S5Prom.DecodeNibbleInFrame | src/asmp/i_s5prom.c:286-305 | the statements that move and clamp signal and step compute the code's step |
| S5Prom.DecodeByteInFrame | src/asmp/i_s5prom.c:284-340 | a byte's two nibbles, the byte split and the volume division give the byte's two samples |
| S5Prom.NextPair | src/asmp/i_s5prom.c:278-340 | at every phase the two samples due are the next two of the stream, a byte being decoded when one is due |
| S5Prom.PairInStream | src/asmp/i_s5prom.c:345-390 | what each phase puts out is what the stream holds at that position |
| S5Prom.PutPair | src/asmp/i_s5prom.c:343-391 | two slots get the two samples, over or on top of what they held; the others keep their bytes |
| S5Prom.DecodeTurn | src/asmp/i_s5prom.c:278-400 | one turn of the loop puts the next two outputs in the period and keeps codec, phase and source index in step |
| S5Prom.DecodeLoop | src/asmp/i_s5prom.c:260-401 | the loop puts exactly the next `n` outputs of the stream in the period |
| S5Prom.SourceIndexIsDecoded | src/asmp/i_s5prom.c:267-276 | the source pointer computed at the start of a call is at the first byte not yet decoded, past a byte in progress |
| S5Prom.PhaseFromProcessed | src/asmp/i_s5prom.c:393-397 | the phase is half the outputs taken from the packet, modulo 3 |
| S5Prom.RewoundIsInitial | src/asmp/i_s5prom.c:204-231 | a decoder at position zero is the initial one with the whole sample ahead of it, in packet and library |
| S5Prom.Sample.constructor | src/asmp/i_s5prom.c:122-151 | an opened sample is rewound, holds one reference and has the one-shot decode as its stream |
| S5Prom.Sample.GetBuffer | src/asmp/i_s5prom.c:184-193 | the library's promise: the next non-empty packet, cut anywhere, or an error or nothing at the end |
| S5Prom.Sample.ReadPacket | src/asmp/i_s5prom.c:173-202 | a packet is fetched without moving the position; failing to get one flags the end and happens only there |
| S5Prom.Sample.Reset | src/asmp/i_s5prom.c:204-231 | early return or not, the sample is at its first output; the end flag survives exactly the early return |
| S5Prom.Sample.Refill | src/asmp/i_s5prom.c:246-258 | a packet is fetched only when the one in hand is used up; then there is something at hand, or the end is flagged |
| S5Prom.Sample.Serve | src/asmp/i_s5prom.c:258-406 | outputs served out of the packet are the next of the stream, and end the rewound state |
| S5Prom.Sample.OnOutputEvent | src/asmp/i_s5prom.c:110-120 | an event is delivered after those before it |
| S5Prom.Sample.AddRef | src/asmp/i_s5prom.c:477-489 | one reference more to a sample not freed |
| S5Prom.Sample.Close | src/asmp/i_s5prom.c:428-451 | one reference fewer; zero is freed |
| Chunks.ChunkIndependence | src/asmp/i_s5prom.c:248-258 | the pieces that reads return, each answering as DeAdpcm does, join up to a prefix of the stream, to all of it once the end is flagged |
| Chunks.SameHoweverCut | src/asmp/i_s5prom.c:173-202 | two lists of such reads that reach the end join up to the same |
| Chunks.ReadsReachEnd | src/asmp/i_s5prom.c:248-258 | enough requests of two or more reach the flagged end |
| Chunks.PacketsDecide | src/asmp/i_s5prom.c:246-258 | packets and requests together decide what every read gives |
| Transfer.PieceIsDue | src/aout/embedded/embedded_api.c:399-446 | a piece read where a channel stands is the piece it is due, round the end of a looping stream too |
| Transfer.CarriesSilence | src/aout/embedded/embedded_api.c:409-414 | past a one-shot sample's end, silence or nothing mixed completes what the channel is due |
| Transfer.TurnEnds | src/aout/embedded/embedded_api.c:399-446 | from a state where the loop is to end, each turn lowers a measure and leads to such a state |
| Transfer.RunsEnd | src/aout/embedded/embedded_api.c:399-446 | from there every run ends within a bound, however the sample is cut into packets |
| Transfer.RunsSpin | src/aout/embedded/embedded_api.c:399-446 | from every other state every run has frames left for ever |
| Transfer.SlotAfterVoice | src/aout/embedded/embedded_api.c:500-510 | the first sounding channel overwrites the period and each later one adds its samples |
| Transfer.TurnOfVoice | src/aout/embedded/embedded_api.c:500-511 | after channel `i` the period holds the sum of the channels so far |
| Transfer.TenVoicesFit | src/aout/embedded/embedded_api.c:494-511 | the sum of up to ten channels of bounded samples never wraps |
| Transfer.TurnKeepsFate | src/aout/embedded/embedded_api.c:399-446 | no turn leads from a state where the loop ends to one where it does not, or back |
| Channels.Channel.Start | src/aout/embedded/start.c:4-36 | play and loop set the status and send STARTED only from stopped |
| Channels.Channel.Stop | src/aout/embedded/stop.c:10-28 | a sounding channel stops, sends STOPPED and rewinds its sample; a stopped one does nothing |
| Channels.Channel.SetSample | src/aout/embedded/sample.c:5-22 | the old sample loses a reference and the new one gains one; a sample set again keeps its count |
| Channels.Channel.Assign | src/aout/embedded/embedded_api.c:266-286 | a free channel takes a sample, a reference to it and starts it, sending STARTED |
| Channels.Channel.Release | src/aout/embedded/embedded_api.c:204-205 | a channel stops its sample and gives it and its reference up |
| Channels.Silence | src/aout/embedded/embedded_api.c:411-412 | the rest of the period is zeroed and nothing else |
| Channels.TurnAtEnd | src/aout/embedded/embedded_api.c:401-415 | at the end of its sample a looping channel is rewound where it is due, an empty sample included; a one-shot one is stopped and the period completed |
| Channels.TurnReading | src/aout/embedded/embedded_api.c:416-434 | elsewhere the period gains what the channel is due, and the turn is one that the termination argument knows |
| Channels.TransferTurn | src/aout/embedded/embedded_api.c:399-446 | a turn, from any state the loop can be in, keeps its state in step with the channel's place in its stream and is a turn of the abstract loop |
| Channels.EmptyLoopNeverEnds | src/asmp/i_s5prom.c:204-231 | looping a sample without data, with frames left, is a state the loop cannot leave |
| Channels.LoopEmptySample | src/aout/embedded/embedded_api.c:399-408 | such a state is reached by opening an empty sample and looping it: no number of turns completes a period |
| Channels.Channel.Close | src/aout/embedded/close.c:9-26 | the sample loses a reference, and the channel has none any more |
| ChannelTable.PlayKeeps | src/aout/embedded/embedded_api.c:218-307 | after a play or loop the sample is on exactly one channel, sounding as asked; others are untouched; a channel is added only when all are held by other samples |
| ChannelTable.StopKeeps | src/aout/embedded/embedded_api.c:184-216 | after a stop no channel holds the sample; others are untouched |
| ChannelTable.EndKeeps | src/aout/embedded/embedded_api.c:401-414 | a sample that ends is silent but stays on its channel; others are untouched |
| ChannelTable.PlayOnNewChannel | src/aout/embedded/embedded_api.c:297-303 | with every channel held by others, adding one and searching again is what the command comes to |
| ChannelTable.FindUnique | src/aout/embedded/embedded_api.c:234-253 | the search finds the one channel that holds the sample |
| Commands.EffectKeeps | src/aout/embedded/embedded_api.c:339-363 | what each command does to who holds a channel and who sounds, and that the table stays well formed |
| Events.UnbrokenAlternates | src/rh_audio.c:120-157 | an unbroken flow of events is a strict alternation of starts and stops, and the playing flag is raised exactly after a start |
| EmbeddedApi.Api.constructor | src/aout/embedded/embedded_api.c:540-556 | setup makes three free channels |
| EmbeddedApi.Api.AddChannels | src/aout/embedded/embedded_api.c:124-153 | the bucket gains that many stopped channels without a sample, at the end |
| EmbeddedApi.Api.FindChannel | src/aout/embedded/embedded_api.c:234-270 | the search loops find the first channel with the given sample, or without one |
| EmbeddedApi.Api.TryPlay | src/aout/embedded/embedded_api.c:226-295 | one pass does the whole command or, exactly when no channel serves, nothing |
| EmbeddedApi.Api.PlayCommand | src/aout/embedded/embedded_api.c:218-307 | play and loop make of the table what the specification says, with STARTED only for a silent sample and a reference only for a sample newly on a channel, in at most two passes; channels and slots added are freshly allocated |
| EmbeddedApi.Api.StopCommand | src/aout/embedded/embedded_api.c:184-216 | stop takes the sample off its channel, with STOPPED only if it sounded, and leaves it rewound |
| EmbeddedApi.Api.SyncCommand | src/aout/embedded/embedded_api.c:177-182 | the instance is told, and nothing else changes |
| EmbeddedApi.Api.OpenSample | src/rh_audio.c:159-213 | a sample newly opened is silent, rewound and held by its handle alone |
| EmbeddedApi.Api.Execute | src/aout/embedded/embedded_api.c:339-367 | a command other than EXIT does what the specification says and gives its reference up; only a stop moves the sample in its stream, back to its beginning; a sample is freed only when no channel holds it; what is new is freshly allocated |
| EmbeddedApi.Api.TransferOne | src/aout/embedded/embedded_api.c:500-510 | one channel's share of a period its voice fits, with its end recorded in table and events |
| EmbeddedApi.Api.OtherVoicesKept | src/aout/embedded/embedded_api.c:500-511 | distinct channels hold distinct samples, so one channel's turn does not disturb what the others are due |
| EmbeddedApi.Api.MixChannel | src/aout/embedded/embedded_api.c:502-510 | a channel's turn adds what it is due, or nothing if it is silent |
| EmbeddedApi.Api.HearSounding | src/aout/embedded/embedded_api.c:500-510 | a sounding channel's turn adds what it is due and leaves the other channels' voices alone |
| EmbeddedApi.Api.TakeRef | src/aout/embedded/embedded_api.c:698-712 | a reference for a command about to be sent |
| Bucket.AddAppends | src/bucket.c:87-97 | in a tidy bucket adding appends to the list |
| Bucket.GrowAppends | src/bucket.c:99-113 | adding to a full bucket appends to the list and leaves the rest NULL |
| Bucket.RemoveDeletes | src/bucket.c:151-177 | removal deletes the first occurrence and keeps the order; the tail stays NULL if and only if the bucket was not full or the item was in the last slot |
| Bucket.RemoveActsAsList | src/bucket.c:151-177 | whatever the tail holds, removal acts as on a list if and only if the item is in the list or in no slot |
| Bucket.FullRemovalBlocksAdd | src/bucket.c:164-171 | after removing any but the last item of a full bucket no slot is found free, though one is counted |
| Bucket.Bucket.Lock | src/bucket.c:36-42 | locks exactly when unlocked |
| Bucket.Bucket.Unlock | src/bucket.c:43-49 | unlocks exactly when locked once |
| Bucket.Bucket.AddFrom | src/bucket.c:87-97 | the first NULL slot from the given one on takes the item; -1 and no change if there is none |
| Bucket.Bucket.GrowAndAdd | src/bucket.c:99-113 | the slots are kept, the item follows them, and the rest of the extra slots are NULL |
| Bucket.Bucket.Add | src/bucket.c:115-130 | the whole new state in all cases: no item, locked, a free slot counted and found or not, none counted |
| Bucket.Bucket.Remove | src/bucket.c:151-177 | the whole new state: the first slot with the item is closed up, or -1 and no change |
| Bucket.Bucket.Shift | src/bucket.c:163-169 | the later slots move down by one |
| Bucket.Bucket.Reset | src/bucket.c:132-148 | the slots in use become NULL and are counted free |
| Bucket.Bucket.LockItems | src/bucket.c:179-189 | a successful lock exposes the slots and the number in use |
| BucketHistory.StaleCopyIsFound | src/bucket.c:151-177 | any four items with the last different: fill, remove the first, remove the last twice; the second time it is not listed, yet success is reported and the list loses another item |
| BucketHistory.Replay | src/bucket.c:87-177 | the object, put through any additions, removals and resets, has the contents and results that the history says |
| BucketHistory.TidyRemoveResult | src/bucket.c:151-177 | from a tidy bucket, removal reports success if and only if the item was listed |
| BucketHistory.JammedForEver | src/bucket.c:87-177 | no addition or removal repairs a jammed bucket |
| BucketHistory.ResetRepairs | src/bucket.c:132-148 | a reset repairs a bucket that counts too few slots if and only if every slot is NULL already; otherwise it leaves a stale item |
| BucketHistory.OverfullOn | src/bucket.c:87-177 | no addition or removal repairs such a bucket |
| BucketHistory.TidyReset | src/bucket.c:132-148 | a reset of a tidy bucket leaves an empty tidy one |
| BufferQueue.BufferQueue.Reset | src/aout/OpenSLES/buffer_queue.c:13-37 | every buffer is free, in order from the first |
| BufferQueue.BufferQueue.DrainBuffersInUse | src/aout/OpenSLES/buffer_queue.c:39-51 | the number of buffers that are not free |
| BufferQueue.BufferQueue.GetDrainBuffer | src/aout/OpenSLES/buffer_queue.c:53-78 | the oldest filled buffer joins the ones in flight; none if none is filled |
| BufferQueue.BufferQueue.ReturnDrainBuffer | src/aout/OpenSLES/buffer_queue.c:80-88 | the oldest buffer in flight becomes the last free one |
| BufferQueue.BufferQueue.GetFillBuffer | src/aout/OpenSLES/buffer_queue.c:89-107 | the first free buffer is taken to be filled; none if none is free |
| BufferQueue.BufferQueue.ReturnFillBuffer | src/aout/OpenSLES/buffer_queue.c:109-122 | the buffer taken becomes the last filled one |
| BufferQueue.BufferQueue.CancelFillBuffer | src/aout/OpenSLES/buffer_queue.c:124-132 | the buffer taken is the first free one again and the rest is as before |
| Player.Source.Read | src/aout/OpenSLES/update.c:78-80 | the sample's promise: at most the frames asked for, taken in order, or none |
| Player.Player.Fill | src/aout/OpenSLES/update.c:69-99 | a buffer holds exactly the bytes read meanwhile; each read asks for all the room left, none is made after one that gave nothing or once the buffer is full, and the result is what the last one gave |
| Player.Player.Enqueue | src/aout/OpenSLES/update.c:32-55 | the filled buffer is handed over with its bytes |
| Player.Player.HandOver | src/aout/OpenSLES/update.c:101-106 | a buffer with something in it is handed over, an empty one is put back |
| Player.Player.LoadBuffer | src/aout/OpenSLES/update.c:67-106 | one turn of the loop: what is handed over is still what has been read, no buffer in flight is written to, and the reads are those that fill one buffer |
| Player.Player.ReturnBuffer | src/aout/OpenSLES/buffer_queue.c:80-88 | the player returns its oldest buffer and the rest stay intact |
| Player.Player.FillOnce | src/aout/OpenSLES/update.c:75-86 | one read, for all the room left, and what it makes of buffer and counts |
| Player.FillsAsk | src/aout/OpenSLES/update.c:75-99 | if frames divide a buffer no read into it asks for none |
| Pipe.StepKeeps | src/aout/embedded/embedded_api.c:58-122 | no step of a send or receive, cut anywhere, interrupted or finding the pipe empty, loses, adds or moves a byte |
| Pipe.FramesTellApart | src/aout/embedded/embedded_api.c:52-56 | commands of one size are told apart in a stream of bytes |
| Pipe.CatchesUp | src/aout/embedded/embedded_api.c:90-122 | a receiver that keeps on reading receives every command that has been written |
| Pipe.AnyCut | src/aout/embedded/embedded_api.c:58-122 | however write() and read() cut it in pieces, a command sent over an idle pipe is received |
| Pipe.WriteMoves | src/aout/embedded/embedded_api.c:64-86 | a write that reports n bytes has put the next n bytes of the command in the pipe |
| Pipe.ReadMoves | src/aout/embedded/embedded_api.c:96-120 | a read that reports n bytes has taken the oldest n bytes out of the pipe |
| Protocol.ValidKept | src/aout/embedded/embedded_api.c:319-378 | every step keeps the shape of the system, no two channels holding one sample |
| Protocol.RefsKept | src/asmp/i_s5prom.c:428-489 | every step keeps each sample's count equal to what refers to it, and its frees right |
| Protocol.CounterKept | src/rh_audio.c:67-100 | every step keeps each instance's counter equal to its SYNCs written or about to be |
| Protocol.CoverKept | src/rh_audio.c:264-301 | every step keeps each command followed by a SYNC, or its thread about to send one |
| Protocol.EventsKept | src/rh_audio.c:120-157 | every step keeps the alternation of events and the playing flag right |
| Protocol.HoldingKept | src/aout/embedded/embedded_api.c:184-307 | every step keeps a sample on a channel exactly when its last executed command is a play or a loop |
| Protocol.InvKept | src/aout/embedded/embedded_api.c:319-378 | every step of any thread keeps all of these |
| Guarantees.RunInv | src/aout/embedded/embedded_api.c:463-537 | they hold in every reachable state |
| Guarantees.OthersUntouched | src/aout/embedded/embedded_api.c:319-378 | a step changes counts, events and flags of no sample but the one it touches |
| Closing.StopThenWaitLeavesNothing | src/rh_audio.c:290-328 | after stop and wait no channel holds the sample and no unexecuted message names it |
| Closing.CounterTells | src/rh_audio.c:67-118 | with no thread inside a call on the instance, the counter is zero if and only if no unexecuted message names it |
| Closing.CloseTooEarly | src/rh_audio.c:245-272 | a run that plays and closes at once reaches a closed instance that can still be sent an event |
| Closing.StaysSettled | src/rh_audio.c:102-118 | as long as nobody begins a call on it, an instance whose counter is zero stays so, and a lowered flag stays down |
| Progress.CallCompletes | src/rh_audio.c:264-301 | an idle thread can call play, loop and stop on an open instance in any state, and complete the call: the command and a SYNC are on the pipe, with a reference each, and the counter is raised |
| Progress.CountersAtRest | src/rh_audio.c:67-118 | at rest an instance's counter is zero, its flag says whether its sample sounds, and its count is its handle and its channel |
| Progress.OpenCompletes | src/rh_audio.c:159-213 | an instance can be opened in any state, with a count of one |
| Progress.CloseCompletes | src/rh_audio.c:245-262 | an open instance that nobody is in a call on can be closed in any state; its sample loses the handle's reference |
| Progress.ExitIsSent | src/aout/embedded/embedded_api.c:642-646 | an EXIT can be put on the pipe in any state |
| Turns.DrainedLeads | src/aout/embedded/embedded_api.c:319-378 | emptying the pipe is a run of the protocol's steps and keeps its invariant |
| Turns.DrainedWorldIs | src/aout/embedded/embedded_api.c:319-378 | and the samples stand where the stops among the commands leave them |
| Turns.MixedTable | src/aout/embedded/embedded_api.c:494-519 | the samples' ends in the protocol make of the table what filling a period does |
| Turns.MixedReaches | src/aout/embedded/embedded_api.c:494-519 | filling a period is a run of the protocol's steps and keeps its invariant |
| Turns.MixedTells | src/aout/embedded/embedded_api.c:401-414 | an instance whose sample ends in the period is told so, and nothing else has happened to any |
| Refinement.ExecuteNext | src/aout/embedded/embedded_api.c:339-367 | executing one command on the objects is the protocol's Execute and Release, and moves a sample only by a stop |
| Refinement.EffectNamed | src/aout/embedded/embedded_api.c:184-307 | a command makes of the table of samples what it makes of the protocol's table of instances |
| Refinement.FillPeriod | src/aout/embedded/embedded_api.c:494-519 | the same for the filling of a period alone, for any voices that fit it |
| Refinement.MixNext | src/aout/embedded/embedded_api.c:494-519 | filling a period mirrors the samples' ends in the protocol and moves each sounding sample on by the period, or back to its beginning at its end |
| Refinement.Setup | src/aout/embedded/embedded_api.c:540-556 | a new output mirrors the state in which every run begins |
| Refinement.OpenNext | src/rh_audio.c:159-213 | opening an instance's sample mirrors the protocol's Open |
| Refinement.TakeRefNext | src/aout/embedded/embedded_api.c:698-762 | taking a reference for a command or a SYNC mirrors the protocol's Begin and BeginSync |
| Refinement.CloseNext | src/rh_audio.c:245-262 | closing an instance gives its sample up as in the protocol |
| Refinement.ElsewhereNext | src/aout/embedded/embedded_api.c:99-122 | writing and taking messages and raising the counter leave the objects mirroring |
| Refinement.DueForWorld | src/aout/embedded/embedded_api.c:494-511 | what the channels are due is what the protocol's table and the samples' places say |
| Refinement.PlaceOn | src/aout/embedded/embedded_api.c:399-446 | after a period a sample stands where its voice has got to, or at its beginning if it ended or does not sound |
| Playback.PeriodKeeps | src/aout/embedded/embedded_api.c:399-446 | one period carries this on |
| Playback.MessagesKeep | src/aout/embedded/embedded_api.c:319-378 | and so do the messages on the pipe |
| Playback.SoundsOn | src/aout/embedded/embedded_api.c:416-434 | a voice that goes on plays the next frames of its stream |
| Playback.EndsComplete | src/aout/embedded/embedded_api.c:409-414 | a voice that ends completes its stream, and silence completes the period |
| Playback.SumByInstance | src/aout/embedded/embedded_api.c:494-511 | summed by instance the voices come to what they do channel by channel |
| Performance.DoPeriod | src/aout/embedded/embedded_api.c:463-537 | a turn of the main loop on the objects is a turn of the model, and puts out its period |
| Performance.ActFor | src/aout/embedded/embedded_api.c:463-537 | opening for some data, every enabled step of a client, and a turn whenever the io thread is free and the voices fit, are in the model of playback and can be done to the objects |
| Shutdown.CloseOne | src/aout/embedded/close.c:9-26 | closing one channel gives its sample's reference up and clears its slot, as the protocol's step does |

## Left out

- Channels.TransferChannel: the branches for a sample without a mix function and for a failed read, which the PROM sample never takes. It requires the voice to fit the period, without which the code's loop does not return; `TransferTurns` has no such condition.
- S5Prom.Sample.Close: freeing is the count's reaching zero, after which the sample is not valid for any use; the caller's pointer is not cleared.
- Refinement.MainLoopTurn: one period a turn, where the code fills as many as the device has played; and only periods that the voices fit, without which the code's loop does not return.
- Freeing the bucket, the pipe and the audio device at the end of a shutdown.
- Bucket.Bucket.GrowAndAdd: models the intended number of slots, not the byte count the code passes to `realloc`, and not its failing.
- Player.Player.Enqueue: a player that refuses a buffer, which the code loses; buffers come back only when they are in flight.
- EmbeddedApi.Api.PlayCommand: the results of a failed channel creation, and opening the channel, which has no effect in the embedded output.
- Pipe.StepKeeps: failing writes and reads; a send that fails gives its reference up, and a failed SYNC leaves the counter raised.
- The io thread's calls to the audio device, and which period is filled when.
- Mutexes, condition variables and thread creation themselves, and whether a waiting thread is ever scheduled.
- Allocation failures, and the rollback in `add_channels`.
- The ALSA output, which repeats the embedded output's command pipe and channel search.
- The OpenSLES engine and its outer update loop, and messages about buffers consumed before a reset.
- Samples decoded by FFmpeg: the decoding library is not part of this model.
- URLs, printing, the C++ wrapper, the sample programs and the build.
