# pydischarge channel lists, NDS2 helpers and type enums in Dafny

This project models three small pieces of pydischarge and proves what each promises.

1. **The Channel List File (CLF) reader and writer** (`pydischarge/detector/io/clf.py`). A CLF is an INI file. Each section is a group of channels; its `channels` option lists one entry per line as `name [sample_rate] [safe] [fidelity]`, and its other options become per-channel parameters.
   - `ClfEntry`: the entry grammar (`CHANNEL_DEFINITION`), modelled as a deterministic scanner. It tries the alternatives in the pattern's order and is not anchored at the end.
   - `ClfRead`: `read_channel_list_file`, as a method with loops proved against specification functions.
   - `ClfWrite`: `write_channel_list_file`, as a method that grows the configuration channel by channel.
   - `ClfRoundTrip`: what a read of the written configuration gives back.

   The INI file is taken as configparser hands it over: an ordered list of sections, each with an ordered option dictionary (`OrderedDict`).
2. **The NDS2 helper rules** that `pydischarge/io/tests/test_nds2.py` pins down:
   - server-list parsing (`parse_nds_env`) and host resolution order (`Nds2Hosts`);
   - minute-trend alignment (`MinuteTrend`);
   - the channel-type and data-type enums with `any`/`find` (`Nds2ChannelType`, `Nds2DataType`);
   - NDS2 name rendering and the `unique` rule of `find_channels` (`Nds2Channels`).

   `pydischarge/io/nds2.py` is not part of this model. Where the assertions leave a rule open, the model takes the behaviour of the upstream implementation these tests were written for, listed under "Left out".
3. **`NumpyTypeEnum.find`** as `pydischarge/utils/tests/test_enum.py` pins it down: lookup by member name in any case, by numpy type or dtype name, or by value, with an exact error message otherwise (`NumpyTypeEnum`).

Shared modules:
- `Results`: Option and Result.
- `OrderedDict`: a dictionary as an ordered list of pairs.
- `Outcomes`: a run of steps that stops at its first exception.
- `Seqs`: first-seen de-duplication.
- `Text`: split, strip, lower-case, rsplit, `int()` and `str()` of integers, and `repr` of strings.
- `Interpolation`: the check configparser's `BasicInterpolation` makes of every value it is asked to `set`.
- `Flags`: bit-flag unions.

Some consequences of the code as written are proved rather than assumed:
- The `safe` alternation tries `unsafe` before `unsafeabove2kHz`, so a line with `unsafeabove2kHz` is read as `unsafe`. The remaining `above2kHz…` then stops the match, so that line's fidelity is dropped. No parse ever yields `unsafeabove2kHz` (`ClfEntry.NeverUnsafeAbove2kHz`, `ClfEntry.UnsafeAbove2kHzReadAsUnsafe`).
- A rate after the `safe` token is not a rate: the match just stops there (`ClfEntry.RateAfterSafeIgnored`).
- An empty `channels` option yields one empty line, and the reader rejects it (`ClfRead.EmptyChannelsRejected`).
- On the write side, configparser raises `ValueError` for two things:
  - a section named `DEFAULT`;
  - a value with a `%` that is neither the escape `%%` nor a reference `%(name)s`: a lone percent sign in a parameter, say.

  In the model, which reads a group's `channels` back without interpolation (see "## Left out"), writing fails exactly when some channel runs into one of these (`ClfWrite.WriteFails`). When no value holds `%`, the model agrees with configparser, and writing fails exactly when some group is `DEFAULT` (`ClfWrite.WriteWithoutPercent`). With `%` in a value, configparser can fail where the model does not: `get` turns an earlier entry's `%%` into a lone `%`, which the next `set` refuses, and a `%(x)s` reference to a missing option raises `InterpolationMissingOptionError`.

## Model

| member | source | states |
|---|---|---|
| ClfEntry.Run | pydischarge/detector/io/clf.py:85-86 | a character-class run is maximal: every character in it is in the class and the next one is not |
| ClfEntry.RunExact | pydischarge/detector/io/clf.py:85-86 | a run stops exactly where the class ends |
| ClfEntry.FirstPrefix | pydischarge/detector/io/clf.py:87-88 | the alternative chosen is a listed prefix of the text, and every alternative listed before it is not a prefix, so it is the first one in order; none is chosen only when no alternative is a prefix |
| ClfEntry.RateGroup | pydischarge/detector/io/clf.py:86 | the optional rate group, when taken, is a non-empty run of `[0-9.]` and consumes input |
| ClfEntry.TokenGroup | pydischarge/detector/io/clf.py:87-88 | an optional word group, when taken, captures one of its listed alternatives and consumes input |
| ClfEntry.MatchLine | pydischarge/detector/io/clf.py:84-89 | a line matches exactly when it starts with a name character; the name is the longest such prefix; captured rates, safe tokens and fidelities are of their classes |
| ClfEntry.NeverUnsafeAbove2kHz | pydischarge/detector/io/clf.py:87 | the ordered alternation never picks `unsafeabove2kHz` |
| ClfEntry.MatchNeverUnsafeAbove2kHz | pydischarge/detector/io/clf.py:87 | no match ever captures `unsafeabove2kHz` as its safe token |
| ClfEntry.ParseEntry | pydischarge/detector/io/clf.py:118-126 | parsing fails exactly when the line does not start with a name character, with the `Cannot parse ... as channel list entry` message; a parse gives a listed safe token other than `unsafeabove2kHz` and a listed fidelity |
| ClfEntry.CannotParse | pydischarge/detector/io/clf.py:121 | the message is `Cannot parse `, the line as Python's `repr` shows it, and ` as channel list entry`; undoing the escapes of the quoted part gives the line back |
| ClfEntry.CannotParseQuoted | pydischarge/detector/io/clf.py:121 | a line holding `'` is shown in double quotes |
| ClfEntry.IsSafe | pydischarge/detector/io/clf.py:128 | a listed safe token, in any case, is safe exactly when it is not `unsafe` |
| ClfEntry.LowerTokens | pydischarge/detector/io/clf.py:128 | lower-casing leaves `safe`, `unsafe` and `unknown` alone and does not turn `unsafeabove2kHz` into `unsafe` |
| ClfEntry.FormatEntry | pydischarge/detector/io/clf.py:152-157 | an entry line starts with the name, ends with the fidelity, and is as long as its fields and the two separating spaces |
| ClfEntry.SafeTokenFirst | pydischarge/detector/io/clf.py:87 | `safe`, `unsafe` and `unknown` are each picked by the alternation when the text starts with them |
| ClfEntry.FidelityTokenFirst | pydischarge/detector/io/clf.py:88 | every fidelity token is picked when the text starts with it |
| ClfEntry.TokenAfterSpace | pydischarge/detector/io/clf.py:87-88 | an optional word group takes a token after whitespace and leaves the rest |
| ClfEntry.RatePresent | pydischarge/detector/io/clf.py:86 | a rate after whitespace is captured up to the next space |
| ClfEntry.RateAbsent | pydischarge/detector/io/clf.py:86 | text that does not start with a rate character leaves the rate group empty |
| ClfEntry.ParseFormat | pydischarge/detector/io/clf.py:152-157 | the writer's entry line parses back, under the pattern of clf.py:84-89, to the same entry, whatever text follows it |
| ClfEntry.FormatAppend | pydischarge/detector/io/clf.py:152-157 | an entry line is name, optional ` rate`, ` safe`, ` fidelity`, in this order |
| ClfEntry.MatchFormat | pydischarge/detector/io/clf.py:84-89 | the pattern captures all four fields of an entry line as the writer (clf.py:152-157) formats it |
| ClfEntry.RateField | pydischarge/detector/io/clf.py:152-155 | the written rate field is captured as the rate and leaves the rest of the line intact |
| ClfEntry.NoAlternativeStarts | pydischarge/detector/io/clf.py:87-88 | no alternative is chosen when none starts with the text's first character |
| ClfEntry.BareNameDefaults | pydischarge/detector/io/clf.py:124-126 | a line holding only a name parses to that name, no rate, `safe` and `clean` |
| ClfEntry.TokenSkipped | pydischarge/detector/io/clf.py:86-88 | an optional group is skipped when no whitespace precedes the text |
| ClfEntry.TokenNotListed | pydischarge/detector/io/clf.py:87-88 | an optional group is skipped when the word after the space is not one of its alternatives |
| ClfEntry.SafeGroupOnUnsafeAbove2kHz | pydischarge/detector/io/clf.py:87-88 | `unsafeabove2kHz` is captured as `unsafe`, and the `above2kHz` left over is not a fidelity |
| ClfEntry.UnsafeAbove2kHzReadAsUnsafe | pydischarge/detector/io/clf.py:87-88 | a written `unsafeabove2kHz` entry is matched as `unsafe` with no fidelity |
| ClfEntry.RateAfterSafeIgnored | pydischarge/detector/io/clf.py:86-87 | a rate after the safe token is not captured, nor is anything after it |
| ClfEntry.FidelityNotARate | pydischarge/detector/io/clf.py:88 | a rate in fidelity position is not a fidelity |
| ClfRead.ChannelLines | pydischarge/detector/io/clf.py:108 | a `channels` value always yields at least one line |
| ClfRead.SectionFrequencyRange | pydischarge/detector/io/clf.py:109-116 | a section has a frequency range exactly when it has `flow` or `fhigh`; the low end is `flow`, or `0` when absent; the high end is infinite exactly when `fhigh` is absent or `nyquist` in any case, and is `fhigh` otherwise |
| ClfRead.GroupParams | pydischarge/detector/io/clf.py:107-111 | the group parameters hold exactly the section's options other than `channels`, `flow` and `fhigh` |
| ClfRead.NewChannel | pydischarge/detector/io/clf.py:117-137 | a line gives a channel exactly when the pattern matches it (and, as written, it has a rate); a line that does not match gives its `Cannot parse` message; a channel has the section's group and frequency range, and a non-empty name that starts the line |
| ClfRead.ReadSection | pydischarge/detector/io/clf.py:107-137 | a section without `channels` raises `KeyError('channels')`; a section that reads gives one channel per line, each with the section's group and frequency range |
| ClfRead.ReadSections | pydischarge/detector/io/clf.py:106-137 | a file reads exactly when every one of its sections does |
| ClfRead.SectionsError | pydischarge/detector/io/clf.py:106-137 | a failed read reports the error of the first section that fails |
| ClfRead.SectionLines | pydischarge/detector/io/clf.py:107-108 | a section's `channels` option yields at least one line |
| ClfRead.MatchFields | pydischarge/detector/io/clf.py:124-130 | the match fields left after name and rate are popped are a valid dictionary with distinct keys |
| ClfRead.ReadChannelListFile | pydischarge/detector/io/clf.py:92-138 | the loop over sections returns the channels of all sections in file order, or the first error (parsing as corrected; see Findings) |
| ClfRead.SectionChannels | pydischarge/detector/io/clf.py:107-137 | one section read by popping its keys and looping over its lines equals the section's specification, including the `KeyError` for a missing `channels` |
| ClfRead.LinesChannels | pydischarge/detector/io/clf.py:117-137 | the loop over lines returns every line's channel, in order, or the first failing line's error |
| ClfRead.FrequencyRangeAfterPop | pydischarge/detector/io/clf.py:108-109 | popping `channels` first does not change the frequency range |
| ClfRead.GroupOptions | pydischarge/detector/io/clf.py:107-116 | popping `channels`, `flow` and `fhigh` leaves the group parameters and yields the section's frequency range |
| ClfRead.ChannelFromLine | pydischarge/detector/io/clf.py:118-137 | building one channel equals its specification |
| ClfRead.FieldsSafe | pydischarge/detector/io/clf.py:125-128 | the `safe` the flag is computed from is the defaulted safe token |
| ClfRead.FieldsOf | pydischarge/detector/io/clf.py:124-130 | the dictionary built with the `None`s dropped, `setdefault` applied and `name`/`sample_rate` popped equals the match fields |
| ClfRead.GroupParamsGet | pydischarge/detector/io/clf.py:107-111 | a group parameter is the section's option, except that `channels`, `flow` and `fhigh` are gone |
| ClfRead.GroupParamsValid | pydischarge/detector/io/clf.py:107-111 | popping keeps the keys distinct |
| ClfRead.MatchFieldsGet | pydischarge/detector/io/clf.py:124-126 | the match fields hold exactly `safe` and `fidelity`, with their defaults |
| ClfRead.NewChannelParams | pydischarge/detector/io/clf.py:131-136 | a channel's parameters are the group's, overridden by `safe` and `fidelity`, with `frametype` moved out into its attribute |
| ClfRead.ChannelOfLineHolds | pydischarge/detector/io/clf.py:117-137 | each channel read carries its line's name, rate and safety, the section's name and frequency range, the section's `frametype`, and the section's options overridden by the line's flags |
| ClfRead.SectionWithoutChannels | pydischarge/detector/io/clf.py:108 | a section without `channels` raises `KeyError('channels')` |
| ClfRead.SectionChannelsRead | pydischarge/detector/io/clf.py:107-137 | a section reads exactly when every line parses; it then gives one channel per line, in order, each the channel its line owes |
| ClfRead.SectionParseError | pydischarge/detector/io/clf.py:117-122 | a failed section read reports the first line that does not parse, with its message |
| ClfRead.NewChannelOutcome | pydischarge/detector/io/clf.py:118-122 | a line gives a channel exactly when the pattern matches it; otherwise the error is its `Cannot parse` message |
| ClfRead.SectionsAppend | pydischarge/detector/io/clf.py:106 | reading two runs of sections succeeds exactly when both do, and gives the first run's channels first |
| ClfRead.SingleSection | pydischarge/detector/io/clf.py:106 | a file of one section reads as that section |
| ClfRead.EmptyChannelsRejected | pydischarge/detector/io/clf.py:108-122 | an empty `channels` option fails on its one empty line |
| ClfRead.NewChannelAsWritten | pydischarge/detector/io/clf.py:124-130 | as written, a line differs from the corrected reading only when it has no rate, and then fails with `KeyError('sample_rate')` |
| ClfRead.AllRated | pydischarge/detector/io/clf.py:117-137 | as written, a section's lines read exactly when they read as corrected and every channel has a rate, with the same channels |
| ClfRead.ConcatRated | pydischarge/detector/io/clf.py:106 | the same holds across sections |
| ClfRead.SectionsAsWritten | pydischarge/detector/io/clf.py:92-138 | as written, a file reads exactly when the corrected reading succeeds with a rate on every channel, and then to the same channels |
| ClfRead.DefaultFields | pydischarge/detector/io/clf.py:125-136 | the default fields overlay an empty parameter set unchanged and hold no `frametype` |
| ClfRead.BareNameChannel | pydischarge/detector/io/clf.py:124-136 | a bare name reads, as corrected, to a safe channel with no rate and `safe`/`clean` parameters; as written it raises `KeyError` |
| ClfRead.BareNameLines | pydischarge/detector/io/clf.py:107-117 | a section whose `channels` is a bare name reads as that one line |
| ClfRead.BareNameSection | pydischarge/detector/io/clf.py:107-137 | the same for a whole section |
| ClfRead.BareNameWithoutRate | pydischarge/detector/io/clf.py:92-138 | the documented rate-less file `[g] channels = NAME` fails to read as written and reads, as corrected, to one channel |
| ClfWrite.SectionIndex | pydischarge/detector/io/clf.py:148 | the position of the first section with the name, or the end when there is none |
| ClfWrite.EntryOf | pydischarge/detector/io/clf.py:152-157 | a channel's entry line, when the pattern can capture its fields, reads back to them: name, rate, and the `safe` and `fidelity` parameters or their defaults |
| ClfWrite.EntryReadsBack | pydischarge/detector/io/clf.py:152-157 | an entry the pattern can capture is parsed back from its formatted line |
| ClfWrite.SetParams | pydischarge/detector/io/clf.py:150-151 | setting the parameters keeps a valid dictionary valid and loses no option |
| ClfWrite.ParamsChecked | pydischarge/detector/io/clf.py:150-151 | setting through the interpolation check succeeds exactly when every value passes, and then gives the unchecked result; it fails otherwise with the first refused value and its position |
| ClfWrite.Placed | pydischarge/detector/io/clf.py:148-163 | adding a channel grows the configuration by one section exactly when its group is new, and the channel's section bears the group's name |
| ClfWrite.AddChannel | pydischarge/detector/io/clf.py:147-163 | a `DEFAULT` group is refused with configparser's `Invalid section name`; a channel that is added is placed as the unchecked specification places it |
| ClfWrite.GrownOk | pydischarge/detector/io/clf.py:158-163 | over values that pass the check, the grown `channels` value passes exactly when the new entry line does |
| ClfWrite.AddChannelOutcome | pydischarge/detector/io/clf.py:147-163 | adding a channel succeeds exactly when it is accepted; a success keeps every stored value passing the check; a failure is the `DEFAULT` refusal for a `DEFAULT` group and an interpolation error otherwise |
| ClfWrite.WriteChannels | pydischarge/detector/io/clf.py:146-163 | a written configuration has at most one section per channel |
| ClfWrite.WithEntryIsSet | pydischarge/detector/io/clf.py:158-163 | growing `channels` in one pass equals `out.set` of the grown value |
| ClfWrite.WriteErrorPersists | pydischarge/detector/io/clf.py:146-149 | once a channel was refused, writing stops with that error |
| ClfWrite.WriteChannelListFile | pydischarge/detector/io/clf.py:141-165 | the loop over channels returns the configuration its specification gives, or the first `ValueError` configparser raises: a `DEFAULT` section, or a value its interpolation check refuses |
| ClfWrite.AddToConfig | pydischarge/detector/io/clf.py:147-163 | one pass refuses a `DEFAULT` group, adds the section when missing, sets the parameters through the interpolation check, checks the grown `channels` value and sets it; the result is the specification's |
| ClfWrite.SetChannelParams | pydischarge/detector/io/clf.py:150-151 | setting the parameters one by one through the interpolation check equals its specification, stopping at the first refused value |
| ClfWrite.EntryLine | pydischarge/detector/io/clf.py:152-157 | the entry line built piece by piece is the formatted entry |
| ClfWrite.PlacedShape | pydischarge/detector/io/clf.py:148-163 | adding a channel changes only its group's section, which is appended when it is new |
| ClfWrite.WriteFails | pydischarge/detector/io/clf.py:146-163 | writing succeeds exactly when every channel is accepted: group not `DEFAULT`, and every parameter value and the entry line pass the interpolation check; a written configuration stores only passing values; a failure is a refusal of the first channel not accepted |
| ClfWrite.WriteWithoutPercent | pydischarge/detector/io/clf.py:146-163 | when no parameter value or entry line holds `%`, writing fails exactly when some channel's group is `DEFAULT` |
| ClfWrite.SetParamsGet | pydischarge/detector/io/clf.py:150-151 | after setting, an option holds the last value the parameters give its lower-cased name, else its old value |
| ClfWrite.AddedGet | pydischarge/detector/io/clf.py:150-163 | after adding a channel, `channels` holds the grown list and every other option holds the channel's parameter or its old value |
| ClfWrite.Filter | pydischarge/detector/io/clf.py:146-147 | the channels of one group are channels of that group |
| ClfWrite.Snoc | pydischarge/detector/io/clf.py:146-151 | one more channel extends the groups, its group's channel list and its group's last parameter values |
| ClfWrite.AbsentGroup | pydischarge/detector/io/clf.py:146-151 | a group no channel names has no channels and no parameters |
| ClfWrite.PrefixedSnoc | pydischarge/detector/io/clf.py:161-163 | appending an entry adds a newline and the entry |
| ClfWrite.EntriesSnoc | pydischarge/detector/io/clf.py:158-163 | one more channel appends its entry line to its group's `channels` |
| ClfWrite.EntriesOther | pydischarge/detector/io/clf.py:158-163 | one more channel leaves other groups' `channels` alone |
| ClfWrite.AddChannelTarget | pydischarge/detector/io/clf.py:148-163 | the section a channel goes to exists exactly when its group was seen before, and no other section has that name |
| ClfWrite.NamesPreserved | pydischarge/detector/io/clf.py:148-149 | each pass keeps the sections equal to the groups in first-seen order |
| ClfWrite.GroupsSnoc | pydischarge/detector/io/clf.py:148-149 | the first-seen groups grow by a channel's group only when it is new |
| ClfWrite.PlacedNames | pydischarge/detector/io/clf.py:148-149 | the section names grow by a channel's group only when it is new |
| ClfWrite.OptionsPreserved | pydischarge/detector/io/clf.py:150-151 | each pass keeps every option other than `channels` equal to the last value its group's channels gave it |
| ClfWrite.GrownEntries | pydischarge/detector/io/clf.py:158-163 | growing `channels` by a channel's entry gives its group's entry lines |
| ClfWrite.ChannelsPreserved | pydischarge/detector/io/clf.py:158-163 | each pass keeps `channels` equal to the entry lines of its group's channels |
| ClfWrite.WriteLast | pydischarge/detector/io/clf.py:146 | a written configuration is the previous one with the last channel added |
| ClfWrite.WriteNames | pydischarge/detector/io/clf.py:146-149 | the written sections are the channels' groups, in first-seen order |
| ClfWrite.WriteOptions | pydischarge/detector/io/clf.py:146-151 | each written option other than `channels` holds the last value its group's channels gave it |
| ClfWrite.WriteEntries | pydischarge/detector/io/clf.py:146-163 | each written `channels` option holds its group's entry lines, in channel order, each after a newline |
| ClfRoundTrip.SummariesAppend | pydischarge/detector/io/clf.py:106 | summaries of joined channel lists join |
| ClfRoundTrip.EntryLineShape | pydischarge/detector/io/clf.py:152-157 | a readable entry line is non-empty and has no newline |
| ClfRoundTrip.PrefixedJoin | pydischarge/detector/io/clf.py:158-163 | newline-prefixed entries are a newline followed by the entries joined by newlines |
| ClfRoundTrip.FilterNonEmpty | pydischarge/detector/io/clf.py:146-149 | a group that some channel names has channels |
| ClfRoundTrip.FilterWritable | pydischarge/detector/io/clf.py:146-147 | the channels of one group of writable channels are writable |
| ClfRoundTrip.EntriesLines | pydischarge/detector/io/clf.py:158-163 | the lines the reader (clf.py:108) splits a written `channels` value into are its group's entry lines |
| ClfRoundTrip.LineReadBack | pydischarge/detector/io/clf.py:117-157 | a written entry line reads back to the channel's name, rate and safety |
| ClfRoundTrip.LinesReadBack | pydischarge/detector/io/clf.py:117-137 | every written line of a group reads back |
| ClfRoundTrip.AllReadBack | pydischarge/detector/io/clf.py:117-137 | the lines' results collect into all of their channels |
| ClfRoundTrip.SectionReadBack | pydischarge/detector/io/clf.py:107-163 | a written section reads back to its group's channels in order |
| ClfRoundTrip.ConcatReadBack | pydischarge/detector/io/clf.py:106 | the sections read back one group after another |
| ClfRoundTrip.GroupedSnoc | pydischarge/detector/io/clf.py:146-163 | one more channel adds itself to the grouped list when its group is listed |
| ClfRoundTrip.GroupedSnocStep | pydischarge/detector/io/clf.py:146-163 | the same, for one more listed group |
| ClfRoundTrip.GroupedPermutes | pydischarge/detector/io/clf.py:146-163 | regrouping channels by first-seen group is a permutation of them |
| ClfRoundTrip.GroupedOldGroup | pydischarge/detector/io/clf.py:148 | a channel of a seen group joins that group |
| ClfRoundTrip.GroupedNewGroup | pydischarge/detector/io/clf.py:148-149 | a channel of a new group starts a section at the end |
| ClfRoundTrip.EntryWithoutPercent | pydischarge/detector/io/clf.py:152-157 | an entry line whose fields the pattern can capture holds no `%` |
| ClfRoundTrip.WritableAccepted | pydischarge/detector/io/clf.py:146-163 | the writer accepts a writable channel |
| ClfRoundTrip.ReadAfterWrite | pydischarge/detector/io/clf.py:92-165 | writing writable channels succeeds and the result reads back. It gives every channel's group, name, rate and the safety flag `IsSafe` computes from the `safe` parameter the writer formats (clf.py:156), grouped by first-seen group (a permutation of the input) |
| Nds2Hosts.ParseHost | pydischarge/io/tests/test_nds2.py:89-105 | a token without a colon is a host with no port; a port comes only from a colon; only a bad port fails |
| Nds2Hosts.ServerList | pydischarge/io/tests/test_nds2.py:89-105 | a parsed server list is non-empty, has no repeats and no more hosts than tokens; it fails only on a bad port |
| Nds2Hosts.EnvHosts | pydischarge/io/tests/test_nds2.py:119-142 | reading a variable reports it unset exactly when the environment lacks it |
| Nds2Hosts.EnvList | pydischarge/io/tests/test_nds2.py:108-142 | with no list given, no environment hosts are read; reading one fails only on a bad port |
| Nds2Hosts.ResolutionOrder | pydischarge/io/tests/test_nds2.py:108-172 | the resolution fails exactly when the environment list does; it otherwise starts with the environment hosts and adds at most two |
| Nds2Hosts.Lookups | pydischarge/io/tests/test_nds2.py:108-157 | the two lookups are the site and the default, the default first exactly for an old epoch or no site |
| Nds2Hosts.StepGrows | pydischarge/io/tests/test_nds2.py:108-172 | a lookup keeps the hosts so far as a prefix, adds at most one and keeps them distinct, adds the host the table knows for the key, and warns exactly when the key is unknown and no host was found yet |
| Nds2Hosts.ParsedTokens | pydischarge/io/tests/test_nds2.py:89-105 | one parsed result per comma-separated token |
| Nds2Hosts.ParseNdsEnv | pydischarge/io/tests/test_nds2.py:89-105 | the loop that appends each parsed pair unless already seen equals the server list of the named variable |
| Nds2Hosts.ServerListSpec | pydischarge/io/tests/test_nds2.py:93-96 | the parsed list has no repeats, holds every token's pair and nothing else |
| Nds2Hosts.DedupAll | pydischarge/io/tests/test_nds2.py:93-96 | de-duplicated results hold every result's value exactly once |
| Nds2Hosts.FormatHost | pydischarge/io/tests/test_nds2.py:90-99 | a rendered `host[:port]` has no comma |
| Nds2Hosts.FormatList | pydischarge/io/tests/test_nds2.py:90-99 | one comma-free token per host |
| Nds2Hosts.ParseFormat | pydischarge/io/tests/test_nds2.py:89-105 | a rendered host parses back to itself |
| Nds2Hosts.ServerListRoundTrip | pydischarge/io/tests/test_nds2.py:89-105 | a rendered host list parses back to the list with repeats after the first dropped |
| Nds2Hosts.Known | pydischarge/io/tests/test_nds2.py:108-116 | the table hosts of the looked-up sites are exactly those the table knows |
| Nds2Hosts.HostResolutionOrder | pydischarge/io/tests/test_nds2.py:108-172 | the loop over lookups equals the resolution specification |
| Nds2Hosts.ResolveExtends | pydischarge/io/tests/test_nds2.py:119-131 | the environment hosts come first, and each lookup adds at most one host |
| Nds2Hosts.ResolveDedup | pydischarge/io/tests/test_nds2.py:119-131 | the result is the environment hosts then the known site hosts, first occurrences only |
| Nds2Hosts.ResolveHosts | pydischarge/io/tests/test_nds2.py:108-157 | the resolved hosts are the environment hosts followed by the known site hosts, first occurrences only; the environment hosts stay a prefix, no host repeats, and every looked-up site the table knows contributes its host |
| Nds2Hosts.ServerListNonEmpty | pydischarge/io/tests/test_nds2.py:89-105 | a parsed server list is never empty |
| Nds2Hosts.ResolutionOrderHosts | pydischarge/io/tests/test_nds2.py:108-157 | the order is the environment hosts, then the site and default hosts in epoch order, no repeats; the default and the site's host are always present when the table knows them |
| Nds2Hosts.SiteOrder | pydischarge/io/tests/test_nds2.py:145-157 | an old epoch puts the default host before the site host, a current one the site host first |
| Nds2Hosts.ResolveTwo | pydischarge/io/tests/test_nds2.py:108-157 | two lookups are two steps |
| Nds2Hosts.Warning | pydischarge/io/tests/test_nds2.py:160-172 | exactly one warning is emitted when the site is unknown, the epoch is current and no environment list was read; otherwise none |
| Nds2Hosts.RenderTest1 | pydischarge/io/tests/test_nds2.py:90-92 | `test1.ligo.org:80` renders as given |
| Nds2Hosts.RenderTest2 | pydischarge/io/tests/test_nds2.py:90-92 | `test2.ligo.org:43` renders as given |
| Nds2Hosts.RenderTest | pydischarge/io/tests/test_nds2.py:93-96 | `test.ligo.org` renders without a port |
| Nds2Hosts.JoinTwo | pydischarge/io/tests/test_nds2.py:90-92 | the two-host variable value is the rendered list |
| Nds2Hosts.TwoHostList | pydischarge/io/tests/test_nds2.py:90-92 | the two-host value parses to both hosts in order |
| Nds2Hosts.JoinFour | pydischarge/io/tests/test_nds2.py:93-96 | the four-token value is the rendered list with a repeat |
| Nds2Hosts.RepeatedHostList | pydischarge/io/tests/test_nds2.py:93-96 | the four-token value parses to three hosts, the repeat dropped |
| Nds2Hosts.ParseNdsEnvExamples | pydischarge/io/tests/test_nds2.py:89-105 | the three parametrised cases of `parse_nds_env` |
| Nds2Hosts.PinnedEntries | pydischarge/io/tests/test_nds2.py:108-172 | the host table maps no site to the default host and `L1` to the Livingston host, and does not know `X1` |
| Nds2Hosts.ResolutionFrom | pydischarge/io/tests/test_nds2.py:108-157 | a resolution starts from whatever the environment list gives |
| Nds2Hosts.EnvTwoHosts | pydischarge/io/tests/test_nds2.py:119-142 | a variable holding the two-host value gives both hosts |
| Nds2Hosts.ResolveWithoutSite | pydischarge/io/tests/test_nds2.py:108-131 | without a site: the default host after any environment hosts |
| Nds2Hosts.ResolveLivingston | pydischarge/io/tests/test_nds2.py:108-157 | for `L1`: site host then default, reversed for an old epoch, after any environment hosts |
| Nds2Hosts.ResolveUnknownSite | pydischarge/io/tests/test_nds2.py:160-172 | for `X1`: only the default host with one warning, and no warning after environment hosts |
| Nds2Hosts.ResolutionWithoutEnv | pydischarge/io/tests/test_nds2.py:108-116 | `test_host_resolution_order` |
| Nds2Hosts.ResolutionWithDefaultEnv | pydischarge/io/tests/test_nds2.py:119-131 | `test_host_resolution_order_env` |
| Nds2Hosts.ResolutionWithNamedEnv | pydischarge/io/tests/test_nds2.py:134-142 | `test_host_resolution_order_named_env` |
| Nds2Hosts.ResolutionByEpoch | pydischarge/io/tests/test_nds2.py:145-157 | `test_host_resolution_order_epoch` |
| Nds2Hosts.ResolutionWarning | pydischarge/io/tests/test_nds2.py:160-172 | `test_host_resolution_order_warning`: one warning with no environment list, none with one |
| MinuteTrend.MinuteTrendTimes | pydischarge/io/tests/test_nds2.py:329-339 | the start is floored and the end ceiled to multiples of 60 |
| MinuteTrend.MinuteTrendTightest | pydischarge/io/tests/test_nds2.py:329-339 | no multiple of 60 at or below the start is later, and none at or above the end is earlier |
| MinuteTrend.MultiplesApart | pydischarge/io/tests/test_nds2.py:329-339 | distinct multiples of 60 are at least 60 apart |
| MinuteTrend.MinuteTrendAligned | pydischarge/io/tests/test_nds2.py:330 | aligned times are unchanged |
| MinuteTrend.MinuteTrendExamples | pydischarge/io/tests/test_nds2.py:329-339 | the five parametrised cases, GPS-sized values included |
| Flags.Pow2 | pydischarge/io/tests/test_nds2.py:39-40 | a flag value is positive |
| Flags.FlagValues | pydischarge/io/tests/test_nds2.py:39-40 | the first n flags are the powers of two in order |
| Flags.FlagValuesTo64 | pydischarge/io/tests/test_nds2.py:39-40 | the first seven flags are 1 to 64 |
| Flags.Max | pydischarge/io/tests/test_nds2.py:40 | the maximum is a value of the list and bounds all of them |
| Flags.OrZero | pydischarge/io/tests/test_nds2.py:39-40 | or-ing with zero changes nothing |
| Flags.OrNextFlag | pydischarge/io/tests/test_nds2.py:39-40 | or-ing the next flag onto all lower bits sets one more bit |
| Flags.UnionOfFlags | pydischarge/io/tests/test_nds2.py:39-40 | the union of the first n flags is 2^n - 1 |
| Flags.UnionNextFlag | pydischarge/io/tests/test_nds2.py:39-40 | one induction step of that union |
| Flags.UnionZeroFirst | pydischarge/io/tests/test_nds2.py:39-40 | a zero member adds nothing to the union |
| Flags.AnyIsUnion | pydischarge/io/tests/test_nds2.py:39-40 | `2*max - 1` of flag values, with or without a zero member, is their bitwise union |
| Flags.AnyMask | pydischarge/io/tests/test_nds2.py:39-40 | `any()` is at least every member value when one is positive, and below twice the largest |
| Flags.PowMonotone | pydischarge/io/tests/test_nds2.py:39-40 | powers of two grow with the exponent |
| Nds2ChannelType.Values | pydischarge/io/tests/test_nds2.py:39-40 | the value of every member, in order |
| Nds2ChannelType.AnyIsUnion | pydischarge/io/tests/test_nds2.py:39-40 | the member values are 0 and the flags 1 to 64, and `any()` is their union |
| Nds2ChannelType.AnyValue | pydischarge/io/tests/test_nds2.py:39-40 | `any()` of the channel types is 127 |
| Nds2ChannelType.Search | pydischarge/io/tests/test_nds2.py:67-80 | the member found is one the query names; none is found only when no member matches |
| Nds2ChannelType.InMembers | pydischarge/io/tests/test_nds2.py:60-65 | the member list holds every channel type |
| Nds2ChannelType.Find | pydischarge/io/tests/test_nds2.py:42-80 | `find` returns a member the query names, and fails exactly when none does, with the error naming the query and `Nds2ChannelType` |
| Nds2ChannelType.Shown | pydischarge/io/tests/test_nds2.py:42-49 | an integer query is shown as its decimal text, a string as `repr` shows it, decoding back to it |
| Nds2ChannelType.KeysRule | pydischarge/io/tests/test_nds2.py:57-80 | the strings naming a member are its name lower-cased, its NDS2 name and that NDS2 name without hyphens, in this order, repeats dropped |
| Nds2ChannelType.MemberFlags | pydischarge/io/tests/test_nds2.py:39-40 | every member but `UNKNOWN` is a single flag, `UNKNOWN` is 0, and no two members share a value |
| Nds2ChannelType.KeysOfMember | pydischarge/io/tests/test_nds2.py:57-80 | a member is named by its name lower-cased and by its lower-case NDS2 name |
| Nds2ChannelType.KeysUnique | pydischarge/io/tests/test_nds2.py:67-80 | no query names two members |
| Nds2ChannelType.FindMember | pydischarge/io/tests/test_nds2.py:67-80 | `find` of a member's value, or of any of its names in any case, returns that member |
| Nds2ChannelType.FindExamples | pydischarge/io/tests/test_nds2.py:57-71 | `MTREND` found by value, name, NDS2 name and `mtrend`; its NDS2 name is `m-trend` |
| Nds2ChannelType.FindSynonyms | pydischarge/io/tests/test_nds2.py:72-75 | `rds`, `RDS`, `reduced` and `REDUCED` find `RDS` |
| Nds2ChannelType.NoMemberBlah | pydischarge/io/tests/test_nds2.py:42-49 | no member is named `blah` |
| Nds2ChannelType.FindError | pydischarge/io/tests/test_nds2.py:42-49 | `find('blah')` fails with `'blah' is not a valid Nds2ChannelType` |
| Nds2ChannelType.BlahMessage | pydischarge/io/tests/test_nds2.py:45-48 | the text of that error |
| Nds2DataType.Values | pydischarge/io/tests/test_nds2.py:39-86 | the value of every member, in order |
| Nds2DataType.AnyIsUnion | pydischarge/io/tests/test_nds2.py:39-86 | the member values are the flags 1 to 64, and `any()` is their union |
| Nds2DataType.AnyValue | pydischarge/io/tests/test_nds2.py:39-86 | `any()` of the data types is 127 |
| Nds2DataType.NamesOfInts | pydischarge/io/tests/test_nds2.py:83-86 | the integer members' type names are `int16`, `int32`, `int64` |
| Nds2DataType.NamesOfFloats | pydischarge/io/tests/test_nds2.py:83-86 | the float members' type names are `float32`, `float64` |
| Nds2DataType.NamesOfOthers | pydischarge/io/tests/test_nds2.py:83-86 | the remaining type names are `complex64`, `uint32` |
| Nds2DataType.WellFormedDataTypes | pydischarge/io/tests/test_nds2.py:83-86 | the data types have distinct values and distinct names |
| Nds2DataType.DistinctPair | pydischarge/io/tests/test_nds2.py:83-86 | two different data types differ in value and in type name |
| Nds2DataType.FindExamples | pydischarge/io/tests/test_nds2.py:83-86 | the inherited `find` cases hold for `INT16` (name in both cases, type name, value) |
| Nds2DataType.FindFloat | pydischarge/io/tests/test_nds2.py:275-282 | Python `float` (`float64`) finds `FLOAT64` |
| Nds2Channels.NameExamples | pydischarge/io/tests/test_nds2.py:349-364 | `test`, `X1:TEST,m-trend` and `X1:TEST,raw` |
| Nds2Channels.StripType | pydischarge/io/tests/test_nds2.py:266-282 | a name without a comma keeps the given type mask; a suffix sets the mask to the named member's value, or fails |
| Nds2Channels.StripSuffix | pydischarge/io/tests/test_nds2.py:274-282 | the suffix after the last comma gives the type; it is removed from the name except for a trend on protocol 1 |
| Nds2Channels.NativeRoundTrip | pydischarge/io/tests/test_nds2.py:342-354 | stripping a native channel's rendered name gives back its name and type |
| Nds2Channels.ChannelRoundTrip | pydischarge/io/tests/test_nds2.py:342-354 | stripping the rendered name of a `Channel` gives back its name: with its type's value when the type was written and the lookup knows it (and it is no trend on protocol 1), with the requested type when the type went unwritten |
| Nds2Channels.NoComma | pydischarge/io/tests/test_nds2.py:342-354 | NDS2 type names have no comma |
| Nds2Channels.Offline | pydischarge/io/tests/test_nds2.py:284-289 | the matches kept are exactly those whose type is not online |
| Nds2Channels.UniqueMatch | pydischarge/io/tests/test_nds2.py:284-297 | a unique result is one of the matches; a single match is kept; failure names the query |
| Nds2Channels.UniqueMatchSpec | pydischarge/io/tests/test_nds2.py:284-297 | `unique` succeeds exactly on one match, or on two of which exactly one is online, and then keeps the other |
| Nds2Channels.Message | pydischarge/io/tests/test_nds2.py:293-296 | an unknown type keeps `find`'s message; a failed `unique` search names the query, as `repr` shows it, after `unique NDS2 channel match not found for ` |
| Nds2Channels.FindOne | pydischarge/io/tests/test_nds2.py:266-297 | only a type suffix can make `find` fail, only `unique` can fail for want of one match, a `unique` success holds one match, and without `unique` a name without a suffix gets the server's matches unchanged |
| Nds2Channels.FindAll | pydischarge/io/tests/test_nds2.py:248-297 | an unknown channel type fails with `find`'s error; a failure for want of a unique match needs `unique`; success needs both masks; no channels give no matches |
| Nds2Channels.FindChannels | pydischarge/io/tests/test_nds2.py:248-297 | the loop over channels equals the specification: every channel's matches in order, or the first error |
| Nds2Channels.FindAllUnique | pydischarge/io/tests/test_nds2.py:284-297 | with `unique`, a successful search gives exactly one match per channel, each its own search's match |
| Nds2Channels.FindOnePassesThrough | pydischarge/io/tests/test_nds2.py:266-282 | without `unique`, the server's matches for the stripped name are returned unchanged |
| Nds2Channels.FindAllOne | pydischarge/io/tests/test_nds2.py:266-282 | searching one channel is that channel's search |
| Nds2Channels.FindOneBare | pydischarge/io/tests/test_nds2.py:266-297 | a name without a suffix is sent as given, and `unique` applies to what comes back |
| Nds2Channels.FindPlain | pydischarge/io/tests/test_nds2.py:266-297 | a plain name with no options asks the server for every type and every data type |
| Nds2Channels.FindDefaults | pydischarge/io/tests/test_nds2.py:266-271 | `find_channels(['X1:test'])` asks for `('X1:test', any(), any())` |
| Nds2Channels.StripTrendName | pydischarge/io/tests/test_nds2.py:274-282 | on protocol 1, `X1:test,m-trend` keeps its suffix and sets the `MTREND` mask |
| Nds2Channels.MTrendByName | pydischarge/io/tests/test_nds2.py:279 | `m-trend` finds `MTREND` |
| Nds2Channels.TrendSplit | pydischarge/io/tests/test_nds2.py:275 | the suffix of `X1:test,m-trend` is `m-trend` |
| Nds2Channels.Float64Mask | pydischarge/io/tests/test_nds2.py:276-280 | `dtype=float` gives the `FLOAT64` mask |
| Nds2Channels.FindKeywords | pydischarge/io/tests/test_nds2.py:273-282 | the keyword case asks for `('X1:test,m-trend', MTREND, FLOAT64, 16, 16)` |
| Nds2Channels.UniqueOfPair | pydischarge/io/tests/test_nds2.py:284-297 | a raw match plus its online copy keeps the raw match; two raw matches fail |
| Nds2Channels.FindUniqueOfCopies | pydischarge/io/tests/test_nds2.py:284-289 | `unique=True` with a raw and an online match returns the raw one |
| Nds2Channels.FindUniqueOfTwins | pydischarge/io/tests/test_nds2.py:291-297 | `unique=True` with two raw matches fails, naming `X1:test` |
| Nds2Channels.NotUniqueMessage | pydischarge/io/tests/test_nds2.py:293-296 | the exact error text `unique NDS2 channel match not found for 'X1:test'` |
| NumpyTypeEnum.TypeName | pydischarge/utils/tests/test_enum.py:37-45 | a member's numpy type name is its name lower-cased |
| NumpyTypeEnum.Search | pydischarge/utils/tests/test_enum.py:47-66 | the member found is one the key names; none is found only when no member matches |
| NumpyTypeEnum.Find | pydischarge/utils/tests/test_enum.py:47-75 | `find` returns a member the key names, and fails exactly when none does, with the error naming the key and the class |
| NumpyTypeEnum.Shown | pydischarge/utils/tests/test_enum.py:68-75 | an integer key is shown as its decimal text, a string as `repr` shows it, a numpy type as `dtype(<repr of its name>)`; each decodes back to the key |
| NumpyTypeEnum.Message | pydischarge/utils/tests/test_enum.py:68-75 | the error text is the key as shown, ` is not a valid `, and the class name |
| NumpyTypeEnum.KeyUnique | pydischarge/utils/tests/test_enum.py:47-66 | in an enum with distinct values and names, no key names two members |
| NumpyTypeEnum.FindMatching | pydischarge/utils/tests/test_enum.py:47-66 | `find` returns the member a key names |
| NumpyTypeEnum.FindMember | pydischarge/utils/tests/test_enum.py:47-66 | `find` of a member's value, name, lower-case name or numpy type returns that member |
| NumpyTypeEnum.MyEnumNames | pydischarge/utils/tests/test_enum.py:29-45 | the test enum's type names are `int16` and `float32` |
| NumpyTypeEnum.MyEnumFacts | pydischarge/utils/tests/test_enum.py:37-66 | `INT16`'s type is `int16`, and `find` of `INT16`, `int16`, the `int16` type and the value returns `INT16` |
| NumpyTypeEnum.MyEnumError | pydischarge/utils/tests/test_enum.py:68-75 | `find('blah')` fails with exactly `'blah' is not a valid _MyEnum` |
| NumpyTypeEnum.NoMemberBlah | pydischarge/utils/tests/test_enum.py:68-75 | no member of the test enum is named `blah` |
| NumpyTypeEnum.BlahMessage | pydischarge/utils/tests/test_enum.py:71-74 | the text of that error |
| OrderedDict.Get | pydischarge/detector/io/clf.py:109-111 | a key gives a value exactly when the dictionary holds it |
| OrderedDict.Pop | pydischarge/detector/io/clf.py:108-111 | popping removes the key and keeps the order of the others |
| OrderedDict.GetAt | pydischarge/detector/io/clf.py:107 | a key of a valid dictionary gives the value at its position |
| OrderedDict.SetKeys | pydischarge/detector/io/clf.py:150-151 | setting a key keeps the order of existing keys and appends a new one |
| OrderedDict.SetGet | pydischarge/detector/io/clf.py:150-151 | after setting a key it gives the new value and every other key its old one |
| OrderedDict.SetValid | pydischarge/detector/io/clf.py:150-151 | setting keeps keys distinct |
| OrderedDict.PopGet | pydischarge/detector/io/clf.py:108-111 | after popping a key it is gone and every other key is unchanged |
| OrderedDict.PopAbsent | pydischarge/detector/io/clf.py:110-111 | popping an absent key changes nothing |
| OrderedDict.PopValid | pydischarge/detector/io/clf.py:108-111 | popping keeps keys distinct |
| OrderedDict.UpdateGet | pydischarge/detector/io/clf.py:131-132 | after `update`, a key gives the new value if the update has it, else its old value |
| OrderedDict.UpdateValid | pydischarge/detector/io/clf.py:131-132 | `update` keeps keys distinct |
| Outcomes.All | pydischarge/detector/io/clf.py:117-137 | a successful run has one value per step |
| Outcomes.AllStep | pydischarge/detector/io/clf.py:117-137 | one more step appends its value or ends the run with its error |
| Outcomes.AllErrorPersists | pydischarge/detector/io/clf.py:120-122 | once a step has failed, later steps do not change the outcome |
| Outcomes.AllOk | pydischarge/detector/io/clf.py:117-137 | a run succeeds exactly when every step does, and holds every step's value |
| Outcomes.AllFirstError | pydischarge/detector/io/clf.py:120-122 | a failed run reports its first failing step |
| Outcomes.ConcatStep | pydischarge/detector/io/clf.py:106 | one more section appends its channels or ends the run |
| Outcomes.ConcatErrorPersists | pydischarge/detector/io/clf.py:106 | once a section has failed, later ones do not change the outcome |
| Outcomes.ConcatAppend | pydischarge/detector/io/clf.py:106 | two runs of sections succeed together exactly when both do |
| Outcomes.ConcatSingle | pydischarge/detector/io/clf.py:106 | a run of one step is that step |
| Outcomes.ConcatSingletons | pydischarge/io/tests/test_nds2.py:284-289 | steps of one value each give one value per step |
| Outcomes.ConcatOk | pydischarge/detector/io/clf.py:106 | a run of sections succeeds exactly when every section does |
| Outcomes.ConcatFirstError | pydischarge/detector/io/clf.py:106 | a failed run reports its first failing section |
| Seqs.Dedup | pydischarge/io/tests/test_nds2.py:93-96 | de-duplication keeps only elements of the input and never lengthens it |
| Seqs.DedupSpec | pydischarge/io/tests/test_nds2.py:93-96 | the result has no repeats and holds every input element |
| Seqs.InDedup | pydischarge/io/tests/test_nds2.py:93-96 | an element is in the result exactly when it is in the input |
| Seqs.FirstIndex | pydischarge/io/tests/test_nds2.py:93-96 | the position of the first occurrence of an element |
| Seqs.DedupOrder | pydischarge/io/tests/test_nds2.py:93-96 | the result keeps the first occurrences in input order |
| Seqs.DedupSnoc | pydischarge/io/tests/test_nds2.py:93-96 | one more element is appended only when new |
| Seqs.DedupDistinct | pydischarge/io/tests/test_nds2.py:93-96 | a list without repeats is unchanged |
| Seqs.DedupAppend | pydischarge/io/tests/test_nds2.py:119-131 | de-duplicating an already de-duplicated prefix followed by a tail is de-duplicating the whole |
| Text.Lower | pydischarge/detector/io/clf.py:112 | lower-casing keeps the length and maps each character on its own |
| Text.LowerIdempotent | pydischarge/detector/io/clf.py:112 | lower-casing twice is lower-casing once |
| Text.Split | pydischarge/detector/io/clf.py:108 | `split` always gives at least one piece, and no piece holds the separator |
| Text.SplitJoin | pydischarge/detector/io/clf.py:108 | splitting pieces joined by the separator gives the pieces back |
| Text.Strip | pydischarge/detector/io/clf.py:108 | `strip('\n')` gives a slice of its input with no newline at either end |
| Text.StripNoEdges | pydischarge/detector/io/clf.py:108 | text without the character at either end is unchanged |
| Text.SplitPrefix | pydischarge/detector/io/clf.py:108 | a piece without the separator, then the separator, splits off as the first piece |
| Text.SplitNoSep | pydischarge/detector/io/clf.py:108 | text without the separator is one piece |
| Text.StripLeading | pydischarge/detector/io/clf.py:108 | the newline the writer puts before the first entry is stripped by the reader |
| Text.RSplitOnce | pydischarge/io/tests/test_nds2.py:89-105 | `rsplit(sep, 1)` splits at the last separator; there is no split when there is no separator |
| Text.RSplitLast | pydischarge/io/tests/test_nds2.py:274-282 | the split falls at the last separator |
| Text.ParseInt | pydischarge/io/tests/test_nds2.py:89-105 | `int()` succeeds exactly on an optionally signed run of digits |
| Text.NatToString | pydischarge/utils/tests/test_enum.py:68-75 | the decimal rendering of a natural number reads back as that number |
| Text.IntToString | pydischarge/utils/tests/test_enum.py:68-75 | `str()` of an integer parses back to it |
| Text.Repr | pydischarge/detector/io/clf.py:121 | `repr` of a string is quoted at both ends with the quote Python chooses, and is at least two characters longer |
| Text.ReprRoundTrip | pydischarge/detector/io/clf.py:121 | undoing the escapes in the quoted part of `repr` gives the string back |
| Text.ReprPlain | pydischarge/io/tests/test_nds2.py:293-296 | printable text without quotes or backslashes is shown in single quotes as it is |
| Text.ReprQuoted | pydischarge/detector/io/clf.py:121 | text holding `'` and no `"` is shown in double quotes |
| Text.ReprEscapes | pydischarge/detector/io/clf.py:121 | a backslash, a tab and a control character are escaped |
| Interpolation.ReferenceLength | pydischarge/detector/io/clf.py:151 | a reference `%(name)s` is matched with a non-empty name free of `)` |
| Interpolation.ErrorPosition | pydischarge/detector/io/clf.py:151 | the position reported for a refused value lies within it, and is that of the first `%` left over once the escapes and references are dropped |
| Interpolation.NoPercentOk | pydischarge/detector/io/clf.py:151 | a value without `%` passes the check |
| Interpolation.AfterLine | pydischarge/detector/io/clf.py:161-163 | a passing value, a newline and more text pass exactly when the text does |
| Interpolation.FirstLine | pydischarge/detector/io/clf.py:161 | a newline in front of a value does not change the verdict |
| Interpolation.TrailingPercent | pydischarge/detector/io/clf.py:151 | `50%` is refused at position 2 |
| Interpolation.EscapedPercent | pydischarge/detector/io/clf.py:151 | `50%%` passes |
| Interpolation.Reference | pydischarge/detector/io/clf.py:151 | a reference `%(name)s`, `%(rate)s` say, passes for every non-empty name free of `)` and `%` |
| Interpolation.EmptyReference | pydischarge/detector/io/clf.py:151 | `%()s` is refused |
| Interpolation.UnclosedReference | pydischarge/detector/io/clf.py:151 | `%(name)` without its closing `s`, `%(rate)` say, is refused for every such name |

## Left out

- configparser's INI syntax, file reading and the count check with its `IOError` (clf.py:96-100): the reader starts from the parsed sections in file order.
- configparser's `DEFAULT` section merging its options into every section: files are taken without defaults; only the writer's refusal of a `DEFAULT` group is modelled.
- ClfWrite.AddChannel, ClfWrite.AddToConfig: a group named `""` is treated as an ordinary section. configparser's `set` stores the options of an empty section name in `DEFAULT` instead, where they leak into every later section, and the file written does not read back. `ClfRoundTrip.Writable` excludes that group.
- ClfWrite.AddChannel, ClfWrite.AddToConfig: a channel's group is always a string. In Python a channel whose `group` is `None` reaches `add_section(None)` (clf.py:149), which raises `TypeError("section names must be strings")`; that error is not modelled.
- Nds2ChannelType.Find: by integer, only the value of a single member is found. Upstream the channel type is an `IntFlag`, whose lookup by integer also yields composite values such as 18 (RAW|MTREND); the tests pin only `MTREND.value`.
- ClfWrite.AddToConfig: `out.get(group, 'channels')` (clf.py:159) is taken raw. configparser's `get` interpolates: `%%` comes back as `%` and `%(name)s` is substituted, with its own errors and depth limit. A second entry in a group whose earlier entry holds `%%` therefore fails in Python, but not in the model. The model is exact when no value holds `%`, and `ClfRoundTrip.Writable` excludes `%` in parameter values.
- ClfRead.ReadSection: `config.items(group)` (clf.py:107) interpolates values the same way; the model takes them raw, which is exact when no option holds `%`.
- The `io.registry` registration (clf.py:168-171) and `out.write(fobj)` (clf.py:165): no logic of their own. The writer's result is the configuration object it writes.
- ClfRead.SectionFrequencyRange: `float()` of `flow`/`fhigh` and numpy's `inf` (clf.py:110-114) are not modelled; bounds are kept as their option text, or as infinity. The `ValueError` that `float()` raises for a non-numeric bound (`flow = abc`), which fails the whole read in Python, is therefore dropped: the model gives the bound `abc`.
- `Channel` and `ChannelList` are taken as records of the attributes the reader sets. The writer's `str(channel)` is the channel's name. `sample_rate.to('Hz').value` is the rate's text, so units and float formatting are not modelled.
- ClfRoundTrip.ReadAfterWrite compares group, name, rate and safety only. The safety compared is `IsSafe` of the `safe` parameter the writer formats (clf.py:156), or of `safe` when that parameter is absent. It is not the channel's `safe` attribute: the writer never reads that attribute, so a channel with `safe=False` and no `safe` parameter reads back safe. The parameters read back are not compared with those written, because a section's options are the last value any of its channels gave them, not each channel's own (`ClfWrite.WriteOptions` states what is written).
- The character class `\s` is taken as ASCII space, tab, newline, carriage return, form feed and vertical tab. Python's Unicode whitespace is not modelled.
- `pydischarge/io/nds2.py` is not part of this model. These rules are taken from the upstream implementation that the assertions of `test_nds2.py` were written against:
  - the host table beyond its entries for no site and `L1`;
  - the era rule, kept as a flag: the epoch counts as old when it is further back than the look-back window;
  - an environment list is read only when the variable is named and set to something non-empty;
  - the channel-type member values, names and NDS2 names;
  - the strings `find` accepts for a channel type: the member name lower-cased, the NDS2 name, and the NDS2 name without its hyphen (`mtrend`, `testpt`), compared after lower-casing;
  - the protocol-1 rule that keeps trend suffixes;
  - the bare rendering of raw, reduced and online channels;
  - the `unique` rule, which drops online copies only among two matches;
  - lookup of a channel type by integer, which the model accepts only for a member's own value.
- Date parsing of the epoch (`'Jan 1 2015'`, `'now'`) and the clock: abstracted to the old-epoch flag.
- The network client surface: `connect`, `auth_connect` with its Kerberos retry, the `open_connection` decorator, `get_availability`, `set_epoch` and `get_protocol`. The server is a function parameter of the connection, and the protocol is one of its fields.
- The process environment is a map parameter; `os.environ` itself is not modelled.
- Text.Lower: lower-cases ASCII letters only, not Python's Unicode `str.lower`, since every key and option name involved is ASCII.
- `Nds2DataType.nds2names` and the complete NDS2 data-type table: the data types are the seven flags 1 to 64 with their numpy names. numpy aliases (`float` for `float64`) are resolved by the caller, by passing the numpy type name.
- Numpy dtype objects: a dtype and its scalar type are both identified by their name. The model does not capture the identity (`is`) comparison the enum test makes.
- `int()` of a port accepts only an optional sign and ASCII digits. Python's surrounding whitespace, underscores and non-ASCII digits are not modelled.
- Text.Repr: follows Python's `repr` of a `str` for the choice of quote and for escaping the quote, the backslash, `\t`, `\n`, `\r` and control characters as `\xhh`. Every character above U+00FF is taken as printable and shown as itself; Python escapes the non-printable ones as `\uXXXX` or `\UXXXXXXXX`.
- Warnings are modelled as a count. Their category and text are not modelled.
- Integer sample rates only (`RateFilter`): fractional rates are not modelled.
- Three rules are fixed by the assertions of `test_nds2.py`:
  - test_nds2.py:145-157: a site's host and the default host are both kept, and an old epoch puts the default host first;
  - test_nds2.py:93-96: the server list drops repeated hosts, keeping first occurrences;
  - test_nds2.py:284-297: `unique` drops only the online copy among two matches, so two identical raw matches fail.

## Findings

| source | as written | input that shows it | evidently intended | confidence | as-written member | corrected member |
|---|---|---|---|---|---|---|
| pydischarge/detector/io/clf.py:124-130 | `None` groups are dropped from the match, then `match.pop('sample_rate')` is called with no default, so a line without a rate raises `KeyError('sample_rate')`, although the module documentation (clf.py:26-45) makes the rate optional | a file with one section `[g]` whose `channels` is `X1:CHANNEL-1` | a line without a rate gives a channel whose sample rate is `None` (`pop('sample_rate', None)`) | high; not executed | ClfRead.BareNameWithoutRate | ClfRead.ReadChannelListFile |
