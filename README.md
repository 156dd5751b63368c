# Mythbuntu Control Panel: verified model of its core logic

The Mythbuntu Control Panel is a GTK settings tool for MythTV systems. Its plugins
record the packages to install or remove and the settings to change, and a
privileged back end applies them. This project models, in Dafny, the parts of the
tool that are logic rather than GUI or operating-system calls, and proves
properties of them:

- **The ping gate** (`wait-until-pingable.py`). This covers:
  - the Internet checksum exactly as the source computes it. On a big-endian host it
    departs from section 1 of RFC 1071 for an odd trailing byte (see Findings). The
    RFC 1071 checksum is modelled beside it as the corrected version;
  - building the ICMP Echo Request of RFC 792, with the source's checksum in it;
  - the receive loop, which filters replies by identifier and spends a shrinking timeout;
  - the 1..99 sequence counter;
  - the signal handler;
  - the retry loop up to a deadline, and the exit code it ends with.

  Sockets, DNS, the clock and signal delivery are inputs. Each probe records
  whether the name resolved, whether `sendto` worked, the clock at sending, and
  the datagrams that arrived with the time waited for each. Time is whole clock
  ticks.
- **Plugin bookkeeping** (`plugin.py`). The `MCPPlugin` class has:
  - its install and remove lists;
  - the two reconfiguration dicts, modelled as association lists that keep Python's insertion order;
  - the two request flags;
  - the `_mark*` methods and `clearParentState`;
  - `summarizeChanges`, `getInformation`, and the key check in `__init__`.

  Also modelled: the file-name filter of `reload_plugins`.
- **The MySQL handler** (`mysql.py`). This covers the `bind-address` toggle over the
  lines of `mythtv.cnf` (the file is an optional text), and the five configuration
  fields together with `update_config` and `get_config`.
- **Remote-control files** (`plg_remotes.py`):
  - the two keymap drop-down lists;
  - the first-match key substitution in a keycode file;
  - the `rc_maps.cfg` rewrite.
- **Repositories** (`plg_repos.py`):
  - `convertVersion`;
  - reading `/etc/lsb-release` and `repos.db` in `captureState`;
  - the trunk-password gate in `compareState`;
  - the PPA calls and config settings of `root_scripted_changes`.

  The GUI widgets become a record of their values.
- **System roles** (`plg_system_roles.py`). `captureState` derives role states from
  the set of installed packages and the programs on the PATH. `compareState` turns
  widget values into install and remove marks on the parent plugin.

Modules: `Wrappers` (Option and Result), `Strings` and `TextLines` (the Python string
and line operations the code uses; reading a file in text mode includes the
universal-newline translation of "\r\n" and a lone "\r" to "\n"), `InetChecksum`, `IcmpEcho`, `Pinger`, `Plugin`,
`MySql`, `Remotes`, `Repos` and `SystemRoles`.

Where the written description of the program and its code differ, the model follows
the code:
- A failed DNS lookup or a failed `sendto` does not end the retry loop. Only a reply
  with a positive delay does. The exit code comes from the last probe's result.
- The reply filter compares only the ICMP identifier. It never checks that the ICMP
  type is Echo Reply.

## Model

| member | source | states |
|---|---|---|
| InetChecksum.PairWord | wait-until-pingable.py:111-118 | a byte pair read in host order is a 16-bit word |
| InetChecksum.Htons | wait-until-pingable.py:133 | `socket.htons` keeps a value within 16 bits |
| InetChecksum.Checksum | wait-until-pingable.py:104-135 | the checksum as written is always in 0..0xFFFF |
| InetChecksum.RfcChecksum | wait-until-pingable.py:104-135 | the RFC 1071 checksum (odd byte padded with a zero byte) is in 0..0xFFFF |
| InetChecksum.SumPairs | wait-until-pingable.py:108-119 | the pair loop adds up the words read in host order over the even-length prefix |
| InetChecksum.FoldSum | wait-until-pingable.py:127-135 | the 32-bit truncation, the two folds, the complement and the byte swap compute the folded, complemented checksum in network order |
| InetChecksum.ComputeChecksum | wait-until-pingable.py:104-135 | the loop computes the checksum as written, odd byte added as a plain value; on a little-endian host or for even-length input this is the RFC 1071 checksum |
| InetChecksum.ComputeRfcChecksum | wait-until-pingable.py:104-135 | corrected loop: with the odd byte padded on its right by a zero, the loop computes the RFC 1071 checksum on either byte order |
| InetChecksum.FoldSteps | wait-until-pingable.py:127-132 | the truncation, the fold and the carry add, taken to 16 bits, equal the end-around-carry fold |
| InetChecksum.PairSumAppend | wait-until-pingable.py:111-119 | appending a byte pair to even-length input adds its word; a single trailing byte adds nothing to the pair sum |
| InetChecksum.OddByteIsPadded | wait-until-pingable.py:121-125 | on a little-endian host an odd trailing byte b counts as if the input were padded to `[b, 0]` |
| InetChecksum.RfcOddByteIsPadded | wait-until-pingable.py:121-125 | the RFC checksum pads an odd trailing byte with a zero on either byte order |
| InetChecksum.RfcAgrees | wait-until-pingable.py:111-125 | the code and RFC 1071 agree on little-endian hosts and on even-length input |
| InetChecksum.FoldFacts | wait-until-pingable.py:127-131 | the fold of a 32-bit sum is at most 0xFFFF, is zero only for a zero sum, and is congruent to the sum modulo 0xFFFF |
| InetChecksum.FoldComplement | wait-until-pingable.py:130-132 | adding the complement of the fold to a sum makes its fold all ones |
| InetChecksum.HtonsRoundTrip | wait-until-pingable.py:133 | the network-order bytes of `htons(x)`, read back as a host word, give x |
| InetChecksum.WithChecksumField | wait-until-pingable.py:165-171 | writing the checksum into bytes 2-3 keeps the packet length |
| InetChecksum.FieldAddsWord | wait-until-pingable.py:165-171 | filling the zeroed checksum field adds exactly that word to the pair sum and leaves an odd trailing byte alone |
| InetChecksum.SumsBound | wait-until-pingable.py:127-128 | for inputs under 65536 bytes the 32-bit truncation never fires, with room for one more word |
| InetChecksum.RfcVerifies | wait-until-pingable.py:127-133 | RFC 1071 verification: re-checksumming a message whose field holds its checksum gives 0 |
| InetChecksum.ChecksumVerifies | wait-until-pingable.py:104-135 | the checksum as written is self-consistent: re-running it over its own output gives 0 on either byte order |
| InetChecksum.BigEndianOddByteFails | wait-until-pingable.py:121-125 | on a big-endian host the default 9-byte Echo Request gets checksum f7bb, which fails the receiver's RFC 1071 check |
| IcmpEcho.Header | wait-until-pingable.py:154-156 | `struct.pack("!BBHHH", ...)` gives 8 bytes |
| IcmpEcho.Payload | wait-until-pingable.py:158-162 | the payload has n bytes and byte i is `(0x42 + i) & 0xFF` |
| IcmpEcho.BuildEchoRequest | wait-until-pingable.py:150-173 | the loop-built packet is the code's `checksum` of the dummy header and payload placed in the header, followed by the payload |
| IcmpEcho.EchoRequestLayout | wait-until-pingable.py:150-173 | the packet is 8+n bytes: type 8, code 0, identifier and sequence big-endian at bytes 4-7, the payload; when it fits in a datagram the code's own checksum over it is 0, and the receiver's RFC 1071 check passes on a little-endian host or for an even payload length |
| IcmpEcho.RfcEchoRequestVerifies | wait-until-pingable.py:150-173 | corrected packet: with the RFC 1071 checksum in the header, the receiver's check passes on either byte order, and it is the packet the code sends wherever the two checksums agree |
| IcmpEcho.BigEndianDefaultPingFails | wait-until-pingable.py:121-125 | the packet the code sends on a big-endian host with a one-byte payload, identifier 1 and sequence 1 fails the receiver's RFC 1071 check |
| IcmpEcho.ReceiveOnePing | wait-until-pingable.py:186-222 | the receive loop returns what the arrivals and the shrinking time budget decide |
| IcmpEcho.ReplyWithinTimeout | wait-until-pingable.py:190-222 | the time budget is spent and never reset: an accepted reply arrives no later than the timeout after the start |
| IcmpEcho.ReplyFound | wait-until-pingable.py:192-218 | a datagram with the identifier that arrives within the budget left by the foreign ones before it is taken as the reply |
| IcmpEcho.ForeignOnly | wait-until-pingable.py:216-222 | datagrams that all carry another identifier give no reply |
| IcmpEcho.OwnRequestAccepted | wait-until-pingable.py:210-218 | the type is not checked: the tool's own Echo Request (type 8) with its identifier is accepted as the reply |
| Pinger.MyId | wait-until-pingable.py:246 | the identifier `pid & 0xFFFF` fits in 16 bits |
| Pinger.OnePing | wait-until-pingable.py:225-276 | one probe sends the Echo Request for its sequence number when the name resolves, and returns the outcome the probe's inputs decide |
| Pinger.ProbeNumbers | wait-until-pingable.py:143-183 | a failed lookup returns -2 and a failed `sendto` returns -3; otherwise the delay is between 0 and the timeout |
| Pinger.SeqCycle | wait-until-pingable.py:297-303 | the k-th sequence number is `(k-1) % 99 + 1`: it starts at 1, wraps from 99 to 1, and is never 0 |
| Pinger.PingCounter.constructor | wait-until-pingable.py:303 | the counter starts at 0 |
| Pinger.PingCounter.Ping | wait-until-pingable.py:297-302 | the counter advances, wrapping to 1 at 100, and the probe uses the new value |
| Pinger.HandleSignalsStops | wait-until-pingable.py:282-291 | a series of signals sets `stop` exactly when one of them is 1, 2, 3 or 15 |
| Pinger.WaitUntilPingable | wait-until-pingable.py:346-365 | the main loop ends with the status `Run` defines for the run's inputs, and the probes use sequence numbers 1, 2, … in order |
| Pinger.ExitCodes | wait-until-pingable.py:355-365 | the process exits with 0, 1, 2 or 3 and nothing else |
| Pinger.FailuresRetried | wait-until-pingable.py:346-353 | failed lookups, failed sends and timeouts are all retried: the run continues as if it started at the next iteration |
| Pinger.LastFailureDecides | wait-until-pingable.py:346-363 | when a probe gets no positive delay and a stop signal then arrives (during the probe or the sleep) or the deadline passes, the exit code is 2 if that probe's lookup failed, 3 if its `sendto` failed, else 1 |
| Pinger.ReplyDecides | wait-until-pingable.py:346-365 | a positive delay ends the loop with 0, or with 1 when a stop signal came during that probe |
| Pinger.ExitZeroMeansReply | wait-until-pingable.py:346-365 | exit code 0 only after some probe got a positive delay |
| Pinger.NothingAfterEnd | wait-until-pingable.py:346-353 | after a stop signal or the deadline, no later iteration affects the outcome |
| Plugin.DictSet | plugin.py:117-119 | setting a key stores its value, leaves every other key alone, and keeps insertion order (a new key goes last) |
| Plugin.DictPop | plugin.py:123-124 | popping a missing key is a KeyError; otherwise exactly that key goes and the others keep their values |
| Plugin.RemoveFirstCounts | plugin.py:125-129 | unmarking from a list removes one copy of a present item; an absent item leaves the list unchanged |
| Plugin.AppendThenRemove | plugin.py:120-129 | appending a new item and then unmarking it gives the list back |
| Plugin.MarkList | plugin.py:115-129 | on a list, marking appends (duplicates are kept) and unmarking removes the first occurrence |
| Plugin.MarkDict | plugin.py:115-124 | on a dict, marking sets item→value; unmarking pops the key, and a missing key is a KeyError |
| Plugin.MCPPlugin.constructor | plugin.py:94-108 | after `__init__` the information is stored, nothing is marked, and the plugin is complete |
| Plugin.NewPlugin | plugin.py:102-105 | `__init__` raises NotImplementedError exactly when `name`, `icon` or `ui` is missing |
| Plugin.MCPPlugin.ClearParentState | plugin.py:234-242 | all four collections are empty and both request flags are false |
| Plugin.MCPPlugin.GetInformation | plugin.py:142-149 | the whole dict for no key, the module name for 'module', otherwise the entry or a KeyError |
| Plugin.MCPPlugin.MarkInstall | plugin.py:259-261 | only the install list changes, as `_mark_array` on a list changes it |
| Plugin.MCPPlugin.MarkRemove | plugin.py:263-265 | only the remove list changes, as `_mark_array` on a list changes it |
| Plugin.MCPPlugin.MarkReconfigureRoot | plugin.py:275-277 | only the root dict changes; unmarking a missing key raises KeyError and changes nothing |
| Plugin.MCPPlugin.MarkReconfigureUser | plugin.py:279-281 | only the user dict changes; unmarking a missing key raises KeyError and changes nothing |
| Plugin.MCPPlugin.MarkUpdatePackageList | plugin.py:271-273 | only the update flag changes |
| Plugin.MCPPlugin.MarkUnauthenticatedPackages | plugin.py:267-269 | only the unauthenticated flag changes |
| Plugin.MCPPlugin.SummarizeChanges | plugin.py:287-307 | the loop-built summary is the summary of the raw changes |
| Plugin.SummarizeSection | plugin.py:289-296 | the section loop writes the header line and one tab-indented line per item, or nothing |
| Plugin.SummaryJoin | plugin.py:297-304 | the summary text is the install, remove, root and user sections, then the update line, then the warning, in that order |
| Plugin.SummaryEmptyIff | plugin.py:297-307 | the summary is False exactly when all four collections are empty and both flags are false |
| Plugin.SummaryReadsBack | plugin.py:289-304 | read back line by line, the summary is the sections, each a header plus one `"\t"+item` line per element, then the update line, then the three warning lines |
| Plugin.PluginName | plugin.py:54 | the name is a prefix of the entry that is followed by ".py" and holds no ".py" itself |
| Plugin.PluginNameUnique | plugin.py:54 | that prefix is unique: it is the text before the first ".py" |
| Plugin.PluginNamesMembers | plugin.py:52-54 | a name is loaded exactly when some entry contains ".py", does not contain ".pyc", and has that name |
| Plugin.ReloadPluginNames | plugin.py:51-54 | the loop over the directory entries gives the plugin names in listing order |
| MySql.Directive | mysql.py:130-133 | the written directive matches the bind-address pattern (plain or commented out) and is one complete line |
| MySql.ToggleMySqlServiceConfig | mysql.py:113-148 | the text written is the rewritten lines, or `[mysqld]` and the directive when the file is missing |
| MySql.WriteRewritten | mysql.py:126-139 | the loop with its `found` flag writes the rewritten lines |
| MySql.RewriteStep | mysql.py:126-134 | a non-matching line is copied; the first matching line becomes the directive; later matching lines are dropped |
| MySql.RewriteAfterFound | mysql.py:126-134 | once the directive has been written, later directive lines are dropped and the others are copied |
| MySql.RewriteFirstMatch | mysql.py:126-134 | the directive replaces the first matching line in place: earlier lines are kept, later matches are dropped, and the rest keep their order |
| MySql.RewriteNoMatch | mysql.py:135-139 | with no matching line, the directive is appended after all lines |
| MySql.RewriteResult | mysql.py:126-139 | the output has exactly one matching line and keeps every non-matching line, in order |
| MySql.RewriteIdempotent | mysql.py:126-139 | rewriting the rewritten lines changes nothing |
| MySql.ToggleReadsBack | mysql.py:120-147 | read back, the file holds exactly one directive line, and its other lines are those of the file before (or `[mysqld]`) |
| MySql.ToggleIdempotent | mysql.py:121-147 | toggling twice with the same flag gives what toggling once gave, when the file ends in a line break |
| MySql.UnterminatedLastLine | mysql.py:123-139 | a last line without a newline merges with the directive, and no directive line is left |
| MySql.TerminatedToggleReadsBack | mysql.py:123-139 | once an unended last line is ended first, every file read back holds exactly one directive line, and toggling again changes nothing |
| MySql.MySQLHandler.constructor | mysql.py:43-48 | the handler reports exactly the five fields of the given config |
| MySql.NewHandler | mysql.py:43-48 | construction succeeds exactly when all five keys are present; otherwise it is a KeyError for the first missing key in the order user, password, server, database, securitypin |
| MySql.DefaultComplete | mysql.py:43 | the default config has all five keys |
| MySql.MySQLHandler.GetConfig | mysql.py:163-165 | `get_config` has exactly the five keys |
| MySql.MySQLHandler.UpdateConfig | mysql.py:155-161 | with all keys, `get_config` then returns exactly the five fields; on a missing key the fields before it are assigned and the rest keep their values |
| Remotes.TomlNames | plg_remotes.py:50-51 | at most one name per directory entry |
| Remotes.TomlNamesMembers | plg_remotes.py:50-51 | a name is listed exactly when the listing holds that name plus ".toml" |
| Remotes.KeymapListContents | plg_remotes.py:46-54 | the list is the ".toml" names, sorted, as a permutation; with none it is the placeholder alone |
| Remotes.HomeKeymaps | plg_remotes.py:59-66 | the append loop, sort and placeholder give the keymap list with "None found in home folder" |
| Remotes.TablesPaired | plg_remotes.py:130-142 | the two tables have 36 entries each |
| Remotes.FirstKey | plg_remotes.py:147-150 | the search finds the first table key occurring in the line, or reports that none occurs |
| Remotes.RewriteKeyLines | plg_remotes.py:145-153 | one output line per input line, each rewritten on its own |
| Remotes.ReplaceFirstKey | plg_remotes.py:146-152 | the inner for-else search and replace rewrites the stripped line |
| Remotes.ModifyKeycodeFile | plg_remotes.py:143-157 | the loop writes every rewritten line with a newline |
| Remotes.KeycodeLines | plg_remotes.py:145-153 | read back, the output has one newline-terminated line per input line |
| Remotes.NoKeyOnlyStripped | plg_remotes.py:151-152 | a line holding no key is only stripped |
| Remotes.FirstKeyApplied | plg_remotes.py:147-150 | the first key in table order that occurs is the one applied, with all its occurrences replaced, even when later keys occur too |
| Remotes.PlayPauseEntry | plg_remotes.py:136-142 | the table pairs KEY_PLAYPAUSE with KEY_P |
| Remotes.PlayPauseRewritten | plg_remotes.py:130-150 | a KEY_PLAYPAUSE line becomes KEY_PPAUSE, because the earlier KEY_PLAY entry wins |
| Remotes.FixedPlayPause | plg_remotes.py:130-150 | with KEY_PLAYPAUSE searched first, such a line becomes KEY_P |
| Remotes.FixedElsewhereSame | plg_remotes.py:147-152 | that correction changes nothing for lines without KEY_PLAYPAUSE |
| Remotes.CfgLinesConcat | plg_remotes.py:182-191 | the `rc_maps.cfg` rewrite works line by line |
| Remotes.WriteCfgLine | plg_remotes.py:183-191 | a "driver table" line is written followed by the entry; other lines naming mcp_kcf.toml are skipped; the rest are written stripped |
| Remotes.ModifyRcMaps | plg_remotes.py:180-195 | the loop writes the rewrite of `rc_maps.cfg` |
| Remotes.EntryFacts | plg_remotes.py:186 | the entry names mcp_kcf.toml, is not a "driver table" line, and is one stripped line |
| Remotes.EntryAfterDriverTable | plg_remotes.py:184-186 | the entry comes immediately after every "driver table" line |
| Remotes.CfgKeepsOthers | plg_remotes.py:187-191 | apart from the entries, every line is kept stripped and in order, except lines naming mcp_kcf.toml that are not "driver table" lines |
| Remotes.CfgLinesSettled | plg_remotes.py:182-191 | the rewrite of any file is settled: one-line stripped lines, the entry after each "driver table" line, and no other mcp_kcf.toml line |
| Remotes.SettledFixed | plg_remotes.py:182-191 | rewriting a settled file changes nothing |
| Remotes.RcMapsIdempotent | plg_remotes.py:182-191 | rewriting `rc_maps.cfg` twice gives what rewriting it once gave |
| Repos.ConvertVersion | plg_repos.py:174-178 | a name not ending in ".x" is returned unchanged; otherwise the result has no '.' or 'x' at either end |
| Repos.ConvertVersionStrips | plg_repos.py:176-177 | what is removed from a ".x" name is a run of '.' and 'x' at each end (`str.strip` takes a character set) |
| Repos.ConvertVersionIdempotent | plg_repos.py:174-178 | `convertVersion` is idempotent |
| Repos.ConvertVersionSeries | plg_repos.py:176-177 | "31.x" becomes "31" |
| Repos.CodenameFails | plg_repos.py:66-69 | a DISTRIB_CODENAME line that does not split in two ends the capture with its error |
| Repos.CodenameAbsent | plg_repos.py:66-69 | without a DISTRIB_CODENAME line, `distro` is never bound |
| Repos.ParseDbConcat | plg_repos.py:74-89 | parsing two runs of lines is parsing the first, then the second from its state |
| Repos.ParseDbFails | plg_repos.py:74-89 | an error part-way through `repos.db` is the error of the whole loop |
| Repos.ParseDbNeedsCodename | plg_repos.py:74-75 | without a codename every line raises NameError, so only an empty file parses |
| Repos.DbStepVersions | plg_repos.py:75-89 | a codename line adds its version unless already listed and counts a repository; other lines touch neither |
| Repos.ParseDbVersions | plg_repos.py:74-80 | `versions` holds each codename line's version once, in first-seen order, and the count is the number of codename lines |
| Repos.ParseDbCounts | plg_repos.py:74-80 | parsed from scratch, `versions` is empty exactly when the count is 0 |
| Repos.SlotUntouched | plg_repos.py:81-89 | an attribute whose key no line selects keeps its value |
| Repos.SlotLast | plg_repos.py:81-89 | a last line of an attribute's kind splits in two and gives the attribute its value |
| Repos.SlotLastWins | plg_repos.py:75-89 | classification is codename first, then MYTHTV_RELEASE, then TRUNKPASS, then URL, and the last line of a kind decides |
| Repos.CaptureDb | plg_repos.py:62-112 | after a successful capture, `versions` is never empty |
| Repos.CaptureDbVersions | plg_repos.py:65-112 | `versions` has no duplicates; with no codename line it is ['0'], CurVer is '0' and the default URL is set; otherwise it is the first-seen versions |
| Repos.CaptureChoice | plg_repos.py:118-134 | the MCP flag is set exactly when an enabled sources entry names /mythcp/mcp/; with no configured repo the first version is used |
| Repos.KeysDistinct | plg_repos.py:185-199 | the four reconfigure keys `compareState` uses are different |
| Repos.TailLookups | plg_repos.py:196-199 | the Repo-list and MCP marks set only their own keys |
| Repos.SeriesDictLookups | plg_repos.py:188-195 | the series branch marks only the repo and activation keys |
| Repos.MarksForLookups | plg_repos.py:182-199 | what each reconfigure key holds after `compareState`, and that no other key is marked |
| Repos.AcceptedIff | plg_repos.py:188-193 | the accepted branch fires exactly when the series is edited and approved |
| Repos.CompareGate | plg_repos.py:188-195 | a series is recorded only with a CurVer, and one greater than CurVer only with the trunk password |
| Repos.AcceptedGate | plg_repos.py:190-193 | an accepted series had a CurVer, and a newer one had the right password |
| Repos.ActivationNeedsSeries | plg_repos.py:185-195 | updates are switched on only together with a recorded series |
| Repos.RepoListMarked | plg_repos.py:183-197 | Repo-list is marked exactly when the deactivation branch or the accepted-series branch fired, and then it holds the whole version list |
| Repos.NothingChangedNoMarks | plg_repos.py:180-199 | when every widget shows what was captured, nothing is marked |
| Repos.CompareErrors | plg_repos.py:180-199 | `compareState` raises exactly when there is no selection, no capture, an edited series without CurVer, or a newer series without TRUNKPASS |
| Repos.PpaName | plg_repos.py:255-257 | the PPA is "ppa:mythbuntu/" followed by the converted series name |
| Repos.RemovalsMembers | plg_repos.py:251-257 | every ".x" series of Repo-list has its PPA removed, and nothing else is called |
| Repos.RemoveOldRepos | plg_repos.py:254-257 | the loop over Repo-list makes those removal calls in list order |
| Repos.McpAppliedKeeps | plg_repos.py:271-279 | the MCP step only appends a call and sets its own option |
| Repos.OptionsDistinct | plg_repos.py:263-279 | the three config options written are different |
| Repos.RootScriptedChanges | plg_repos.py:242-285 | the root step makes the calls and writes the config the reconfigure dict decides |
| Repos.ActivationApplied | plg_repos.py:251-267 | an activation with a series adds its PPA, records both options, and removes every ".x" PPA of the list |
| Repos.DeactivationRoot | plg_repos.py:258-269 | a deactivation records "False" and adds no MythTV PPA |
| Repos.AcceptedSeriesApplied | plg_repos.py:188-267 | an accepted, checked series reaches the back end: its PPA is added and recorded, and the listed ".x" PPAs are removed |
| Repos.DeactivationApplied | plg_repos.py:185-269 | a cleared check box reaches the back end as a recorded deactivation with no MythTV PPA added |
| Repos.ReadCodename | plg_repos.py:66-69 | the loop over /etc/lsb-release finds the codename |
| Repos.ReadDbLine | plg_repos.py:75-89 | the body of the `repos.db` loop classifies and records one line |
| Repos.ReadReposDb | plg_repos.py:72-89 | the loop over `repos.db` |
| Repos.FindMcpSource | plg_repos.py:129-134 | the search over sources entries stops at the first enabled MCP entry, and finds one exactly when there is one |
| Repos.ReadDb | plg_repos.py:62-112 | lsb-release, then `repos.db`, then the fallback when no line named the codename |
| Repos.ReposPlugin.constructor | plg_repos.py:40-46 | the parent holds the plugin's name, icon and page, with nothing marked |
| Repos.ReposPlugin.CaptureState | plg_repos.py:62-134 | the attributes become the capture's versions, CurVer, TRUNKPASS, URL and choices, or the error is reported |
| Repos.ReposPlugin.MarkTail | plg_repos.py:196-199 | the Repo-list mark when the list is to be sent, then the MCP mark when that box changed |
| Repos.ReposPlugin.MarkSeries | plg_repos.py:188-195 | the series branch marks what the decision says, or raises and marks nothing |
| Repos.ReposPlugin.MarkChoice | plg_repos.py:183-199 | the marks in source order: deactivation, series, Repo-list, MCP |
| Repos.ReposPlugin.CompareState | plg_repos.py:180-199 | clears the parent's marks, then marks exactly what the widgets change |
| SystemRoles.RoleScanStates | plg_system_roles.py:47-50 | every role item is recorded with its installed state, and nothing else is |
| SystemRoles.RoleScanNoBack | plg_system_roles.py:43-52 | `no_back` stays set exactly when no installed role names "backend" |
| SystemRoles.RoleScanNoFront | plg_system_roles.py:44-54 | `no_front` stays set exactly when no installed role names "frontend" without naming "backend" |
| SystemRoles.ScanRoles | plg_system_roles.py:47-54 | the loop over the three roles gives their installed states; `no_back` holds when neither backend is installed and `no_front` when the frontend is not |
| SystemRoles.CaptureRoles | plg_system_roles.py:43-58 | an installed primary backend forces the secondary one's state to false; the flags follow the installed backends and frontend |
| SystemRoles.NothingChangedNoMarks | plg_system_roles.py:111-148 | nothing is marked exactly when every widget equals its captured state |
| SystemRoles.PrimaryOffRemovesBoth | plg_system_roles.py:114-117 | clearing the primary backend while the secondary one is clear removes both backends |
| SystemRoles.SecondaryIgnored | plg_system_roles.py:111-122 | when the primary changed, the captured secondary state makes no difference and the secondary backend is not installed |
| SystemRoles.XmltvMarks | plg_system_roles.py:128-133 | unchecking xmltv removes xmltv and xmltv-util; checking it installs xmltv only |
| SystemRoles.BackendClean | plg_system_roles.py:111-122 | the backend lines mark only the two backends, never one twice, and never one both ways |
| SystemRoles.MarksDisjoint | plg_system_roles.py:111-148 | no package is both installed and removed, and none is marked twice |
| SystemRoles.SystemRolesPlugin.constructor | plg_system_roles.py:31-37 | the parent holds the plugin's name, icon and page, with nothing marked and nothing captured |
| SystemRoles.SystemRolesPlugin.CaptureState | plg_system_roles.py:39-77 | the captured state is the role loop, the corner case, and the xmltv, ssh and HDHomeRun states |
| SystemRoles.SystemRolesPlugin.ScanRoleItems | plg_system_roles.py:49-54 | the role loop computes the scan of its items |
| SystemRoles.SystemRolesPlugin.ScanItem | plg_system_roles.py:50-54 | one pass of the role loop |
| SystemRoles.SystemRolesPlugin.MarkBackend | plg_system_roles.py:111-122 | the backend lines mark what the corner case decides |
| SystemRoles.SystemRolesPlugin.MarkSwitch | plg_system_roles.py:123-148 | one check box adds its marks after those already made |
| SystemRoles.SystemRolesPlugin.MarkChoices | plg_system_roles.py:111-148 | all the marking lines, in source order |
| SystemRoles.SystemRolesPlugin.CompareState | plg_system_roles.py:105-148 | clears the parent's marks first, then makes exactly the role marks; before any capture it is an AttributeError with nothing marked |
| Strings.SplitTwo | plg_repos.py:77 | `a, b = s.split(sep)` succeeds exactly when sep occurs once, and gives the two sides |
| Strings.Sort | plg_remotes.py:52 | `list.sort()` gives an ascending permutation |
| TextLines.JoinReadLines | mysql.py:123 | splitting the translated text after each newline and writing the pieces back gives that text |
| TextLines.ReadLinesJoin | mysql.py:123 | complete lines split again after each newline are the same lines |
| TextLines.UniversalPlain | mysql.py:122 | text mode reads a text without carriage returns as itself |
| TextLines.UniversalTerminated | mysql.py:122-123 | a text ending in "\n" or a lone "\r" reads as one ending in a newline |
| TextLines.FileLines | mysql.py:122-123 | the lines `readlines()` yields from a file are pieces with no carriage return, and all complete when the file ends in a line break |
| TextLines.FileLinesJoin | mysql.py:122-147 | complete lines without carriage returns, written and read back, are the same lines |
| TextLines.FileTerminated | plg_remotes.py:143-157 | newline-free lines without carriage returns, written with a newline each, read back as those lines |

## Left out

- Sockets, DNS, `select`, `recvfrom`, the clock, `sleep`, signal delivery, `syslog` and `argparse` are not modelled as calls. Each probe and iteration carries what they did as data: whether the name resolved, whether `sendto` worked, the clock at sending, the arrivals, the signals, and the clock after the sleep.
- The raw-socket creation failure and its broken re-raise, the debug printing, and the debug `kill_ping` / signal-20 path are left out. They are error plumbing, output, or debug-only.
- Pinger.OnePing: the delay is whole clock ticks rather than floating-point milliseconds. A reply received at time 0 is treated as falsy, as `if recvTime:` does.
- InetChecksum.RfcVerifies: proved only for inputs under 65536 bytes, where the source's 32-bit truncation cannot fire. IP limits datagrams to that size.
- InetChecksum.ChecksumVerifies: same bound as RfcVerifies.
- IcmpEcho.ReceiveOnePing: each arrival is the bytes `recvfrom(ICMP_MAX_RECV)` returned (wait-until-pingable.py:201), so a datagram is already cut to 2048 bytes before the model sees it. The cut itself is not modelled.
- `plugin.py` GTK code, `launch_app`, dynamic module loading and the apt cache are left out. They are UI and foreign calls.
- Plugin.MCPPlugin.GetInformation: the module name is a parameter, because it comes from Python's runtime reflection.
- Plugin: marked items and keys are strings. Values are a small sum of text, flag, number, text list and None. Other Python objects are not modelled.
- MySql: the XML config, `pymysql`, the connection test and the service restart are left out. They wrap libraries. Creating `/etc/mysql/conf.d` is a filesystem effect.
- MySql.ToggleMySqlServiceConfig: the file is an optional text. A missing file is the `IOError` path. Other I/O errors are not distinguished.
- Remotes: the keytable check, downloads, the `ir-keytable` calls, file copies and the existence checks around the rewrites are left out. They are subprocesses and filesystem effects.
- Repos: the GUI show/hide, the downloads of `repos.db` and the `emit_progress` / `sleep` calls are left out.
- Repos: configparser is modelled as a map from option name to text. It does not lowercase option names.
- Repos: the calls to `apt-add-repository` become a list of add and remove requests.
- Repos.ReadCodename, Repos.ReadReposDb, Repos.ReadDb: the files are given as the lines Python's iteration yields, after the universal-newline translation (TextLines.FileLines of the file's text). The translation is modelled in TextLines and applied in MySql and Remotes, but not repeated here.
- Repos.ReposPlugin.CaptureState: on an error (a malformed line, or no codename) no attribute changes. Python may already have emptied or partly filled `versions` and set some attributes before raising.
- Repos.CaptureChoice: the config values are inputs, None where configparser raises. The sources entries are their text.
- SystemRoles.SystemRolesPlugin.CaptureState: `dictionary_state` is keyed by package name instead of by the widget the role dictionary maps it to.
- SystemRoles.SystemRolesPlugin.CaptureState: the installed check is membership in a set of package names. The `shutil.which` check is membership in a set of program names.
- SystemRoles.SystemRolesPlugin.CaptureState: the xmltv box's sensitivity change is not modelled (GUI).
- SystemRoles: `applyStateToGUI` and `on_backend_select` only drive widgets and are not modelled. The widgets' values are the `Widgets` record `compareState` reads.
- SystemRoles.SecondaryIgnored: states only that the captured secondary state is ignored when the primary changed. The secondary widget still decides whether the secondary backend is removed together with the primary one.
- `backend.py`, `dictionaries.py` beyond the three role packages, and the other plugins are not part of this model.

## Findings

| source | as written | input that shows it | evidently intended | confidence | as-written member | corrected member |
|---|---|---|---|---|---|---|
| wait-until-pingable.py:121-125 | an odd trailing byte is added as a plain value (the low byte) on every host | big-endian host, default 1-byte payload: checksum f7bb; the RFC 1071 sum over the sent packet is be41, not 0 | pad the odd byte on its right with zero, as RFC 1071 section 1 prescribes | not executed | IcmpEcho.BigEndianDefaultPingFails | InetChecksum.ComputeRfcChecksum |
| mysql.py:126-139 | a last line without a newline is written as is, and the directive follows it on the same line | a file holding just "port=3306" becomes "port=3306bind-address=::\n", with no directive line | the directive on a line of its own, found again by the next toggle | not executed | MySql.UnterminatedLastLine | MySql.TerminatedToggleReadsBack |
| plg_remotes.py:130-150 | KEY_PLAY comes before KEY_PLAYPAUSE in the table, and the first key found in the line wins | a line "KEY_PLAYPAUSE" is rewritten to "KEY_PPAUSE", which is no key | KEY_PLAYPAUSE rewritten to KEY_P, as the table pairs them | not executed | Remotes.PlayPauseRewritten | Remotes.FixedPlayPause |
