# sharpd command handlers, modelled in Dafny

This project models the operator command handlers of FRR's `sharpd`. sharpd is a route-injection harness used to stress the routing daemon's route install and remove paths and its nexthop tracking. The handlers modelled are:

- "sharp install routes" and "sharp remove routes". Each overwrites the process-wide route descriptor `sg.r` field by field, then, on success, hands one request to the route helper.
- "sharp watch nexthop" (v4 and v6). Each builds a host prefix, registers it with the nexthop tracker, then asks zebra to watch it.
- "sharp label … vrf NAME label N". It looks up the VRF, maps label 0 to `MPLS_LABEL_NONE`, and asks zebra to add the label.
- "sharp data route". It reports the descriptor's prefix and counters, and the elapsed time `t_end - t_start` computed with `timersub`.

Modules:

- `Prefixes` (prefixes.dfy): bytes, `memset` zeroing, `struct in_addr` / `struct in6_addr`, and `struct prefix` with its 16-byte address union. It also holds the host-prefix builders and the start-prefix choice.
- `Nexthops` (nexthops.dfy): `struct nexthop` (type and gateway union), and the descriptor's nexthop-group pointer as a tagged variant. The variant is NULL, the descriptor's own `nhop`, or a configured group's nexthop list.
- `Timevals` (timevals.dfy): `struct timeval` and `timersub`, with an independent reference (`FromMicros`) and the uniqueness of normalized timevals.
- `ElapsedText` (elapsed_text.dfy): how the dump prints the elapsed time and how a reader reads it back (see Findings).
- `SharpVty` (sharp_vty.dfy): the descriptor, as the class `RouteData` with the fields of `sg.r` and as its value `Descriptor`. It holds the pure specifications `InstallEffect` and `RemoveEffect`, and the imperative handlers `RouteData.InstallRoutes` / `RemoveRoutes` / `DataDump`, proved against those specifications. It also holds the watch and VRF-label handlers as functions, and the lemmas.

The descriptor `sg.r` is part of a zero-initialised global declared outside sharpd/sharp_vty.c. The `RouteData` constructor and `InitialDescriptor` model that all-zero starting state, and `InitialConsistent` shows it is consistent.

Calls into code outside the handlers become `Request` values, in the order the handler makes them. On the class they are appended to the ghost log `requests`. The pure handlers return them in a `Reply`. The nexthop-group registry (`nhgc_find`) is a `map<string, seq<Nexthop>>`. The VRF table (`vrf_lookup_by_id` / `vrf_lookup_by_name`) is two lookup tables. The ranges the command grammar enforces are preconditions, not checks: 1-1000000 routes, instance 0-255, repeat 2-1000 or absent (0), label 0-100000.

The model follows the code where a reader might expect something else:

- A bad argument might be expected to leave the descriptor untouched. It does not: an unknown nexthop-group is found only after the handler has started writing. By the time `install_routes` returns `CMD_WARNING`, it has already overwritten the total and the installed counter, the repeat budget and the recorded prefix. It has also zeroed the nexthop and the group pointer. Of the fields a successful install writes, only the instance keeps its old value (`UnknownGroupOverwritesPartially`).
- The installed and removed counters might be expected never to exceed the total. They can: `remove_routes` resets the total and the removed counter but leaves the installed counter of an earlier run (`RemoveLeavesInstalledAboveTotal`).
- The start address 0.0.0.0 counts as "no IPv4 start given", so the run starts at the IPv6 address (`ZeroStart4MeansIpv6`).
- These handlers do not check for address-space overflow. That check, if there is one, is in the route helper, which is not part of this model.

## Model

| member | source | states |
|---|---|---|
| `Prefixes.Zeros` | sharpd/sharp_vty.c:148-151 | memset leaves exactly n bytes, every one zero |
| `Prefixes.HostPrefix6` | sharpd/sharp_vty.c:51-55 | the watch prefix for a v6 address is a family-INET6 /128 host prefix whose address reads back as that address |
| `Prefixes.HostPrefix4` | sharpd/sharp_vty.c:73-77 | the watch prefix for a v4 address is a family-INET /32 host prefix, the rest of the union zero, whose address reads back as that address |
| `Prefixes.HostPrefixDeterminedByAddress` | sharpd/sharp_vty.c:153-161 | every host prefix is the one the builder makes from its own address (the builders and the address readers are inverse) |
| `Prefixes.StartPrefix` | sharpd/sharp_vty.c:153-161 | the run's prefix is a host prefix; it is IPv4 exactly when start4 is not all-zero, and then carries start4; otherwise it is IPv6 /128 carrying start6 |
| `Prefixes.ZeroStart4MeansIpv6` | sharpd/sharp_vty.c:243-251 | an all-zero v4 start address yields the v6 prefix of start6 |
| `Nexthops.GatewayNexthop` | sharpd/sharp_vty.c:175-181 | the single nexthop is IPV4 with gateway nexthop4 exactly when nexthop4 is not INADDR_ANY, else IPV6 with gateway nexthop6; never the unset type |
| `Timevals.TimerSub` | sharpd/sharp_vty.c:107 | the result denotes t_end minus t_start in microseconds and is normalized (usec in [0, 1000000)) when both inputs are |
| `Timevals.NormalizedUnique` | sharpd/sharp_vty.c:107 | two normalized timevals for the same instant are equal |
| `Timevals.TimerSubIsDifference` | sharpd/sharp_vty.c:107 | on normalized inputs timersub equals the reference normalized difference |
| `ElapsedText.ValueOfDecimal` | sharpd/sharp_vty.c:108-113 | a number printed with %ld reads back as that number |
| `ElapsedText.DecimalFits` | sharpd/sharp_vty.c:108-113 | a number below 10^k prints in at most k digits |
| `ElapsedText.LeadingZerosKeepValue` | sharpd/sharp_vty.c:108-113 | zero padding does not change the value a digit string denotes |
| `ElapsedText.SplitDigitsDot` | sharpd/sharp_vty.c:108-113 | printed "W.F" with all-digit W splits back into W and F |
| `ElapsedText.DecimalAtLeast` | sharpd/sharp_vty.c:108-113 | a number of at least 10^k prints in at least k + 1 digits |
| `ElapsedText.SplitSignedDot` | sharpd/sharp_vty.c:108-113 | printed "W.F" with W from `%ld`, sign included, splits back into W and F |
| `ElapsedText.ReadSigned` | sharpd/sharp_vty.c:108-113 | "W.F" with W from `%ld` reads as W seconds plus the scaled fraction, or minus it when W is negative, since the reader applies the sign to the whole number |
| `ElapsedText.RenderAsWritten` | sharpd/sharp_vty.c:108-113 | the dump's `%ld.%ld` time text splits at its dot into the signed seconds and the unpadded microseconds, for every elapsed time timersub can produce from normalized timestamps, negative ones included |
| `ElapsedText.AsWrittenReading` | sharpd/sharp_vty.c:108-113 | the text as written reads as the seconds plus the microseconds scaled by ten for each digit short of six; for a negative elapsed time the scaled microseconds are subtracted instead |
| `ElapsedText.AsWrittenReadsBackIff` | sharpd/sharp_vty.c:108-113 | for every normalized elapsed time, the text as written reads back exactly if and only if the microseconds are 0, or the time is non-negative and the microseconds are at least 100000; all others, every negative time with non-zero microseconds among them, are misread |
| `ElapsedText.AsWrittenMisreads` | sharpd/sharp_vty.c:108-113 | the dump as written prints 5 microseconds as "0.5", which reads as 500000 microseconds |
| `ElapsedText.AsWrittenNegativeMisreads` | sharpd/sharp_vty.c:106-113 | with t_end still zero and t_start = (100 s, 300000 µs), timersub gives (-101, 700000), whose text reads as -101.7 s although the elapsed time is -100.3 s |
| `ElapsedText.PaddedFraction` | sharpd/sharp_vty.c:108-113 | the microseconds padded to six digits are six characters that denote the microseconds |
| `ElapsedText.RenderElapsedRoundTrip` | sharpd/sharp_vty.c:108-113 | with the microseconds zero-padded to six digits, every non-negative printed time reads back as exactly the elapsed time |
| `ElapsedText.PaddedReadsBackIff` | sharpd/sharp_vty.c:108-113 | with zero padding, the text reads back exactly if and only if the elapsed time is non-negative or has zero microseconds; padding does not mend negative times |
| `SharpVty.RepeatBudget` | sharpd/sharp_vty.c:143-146 | the budget is twice the requested repeats (one install and one remove step per cycle): 0, or an even number in [4, 2000] |
| `SharpVty.InstallEffect` | sharpd/sharp_vty.c:140-190 | total = routes, installed = 0, removed and timestamps untouched, repeat = 2*rpt, prefix = the start prefix, on every path. CMD_WARNING exactly on an unknown group, and then no request, the instance kept, and nhop/group zeroed. Otherwise instance = the argument, the group pointer refers to the found group's list or to the own nhop holding the single gateway, and exactly one install request (prefix, instance, nexthops, routes) |
| `SharpVty.RemoveEffect` | sharpd/sharp_vty.c:237-257 | total = routes, removed = 0, instance = the argument. Prefix, installed counter, repeat, nhop and group are untouched. CMD_SUCCESS with exactly one remove request (start prefix, instance, routes) |
| `SharpVty.InstallPreservesConsistent` | sharpd/sharp_vty.c:140-188 | after an install, on either path, the prefix is a host prefix, the single nexthop is set exactly when the group points at it, and the repeat budget is 0 or even in [4, 2000] |
| `SharpVty.RemovePreservesConsistent` | sharpd/sharp_vty.c:237-253 | a remove keeps the descriptor consistent |
| `SharpVty.UnknownGroupOverwritesPartially` | sharpd/sharp_vty.c:140-171 | on an unknown group the new descriptor is the old one with exactly total, installed, repeat, prefix, nhop and group overwritten |
| `SharpVty.InstallIdempotent` | sharpd/sharp_vty.c:140-190 | issuing the same install a second time leaves the same descriptor and makes the same request and return code as the first issue |
| `SharpVty.RemoveAfterInstallKeepsRun` | sharpd/sharp_vty.c:237-255 | a remove after an install from the same start keeps the install's prefix, nexthops and repeat budget, and asks to remove from the recorded prefix |
| `SharpVty.RemoveLeavesInstalledAboveTotal` | sharpd/sharp_vty.c:237-238 | from a descriptor whose installed counter is 100 (set by hand here: in the model an install sets it to 0, and the completion callbacks that raise it are not part of this model), a remove of 5 routes leaves installed > total |
| `SharpVty.WatchNexthopV6` | sharpd/sharp_vty.c:51-58 | CMD_SUCCESS; first the tracker entry for the INET6 /128 host prefix of the address, then one watch request for it with `true` and the connected flag |
| `SharpVty.WatchNexthopV4` | sharpd/sharp_vty.c:73-80 | CMD_SUCCESS; first the tracker entry for the INET /32 host prefix of the address, then one watch request for it with `true` and the connected flag |
| `SharpVty.LookupVrf` | sharpd/sharp_vty.c:206-209 | "default" is found exactly when VRF_DEFAULT is in the id table, and then is VRF_DEFAULT; any other name is found exactly when the name table has it |
| `SharpVty.LabelToSend` | sharpd/sharp_vty.c:216-217 | label 0 and only label 0 is sent as MPLS_LABEL_NONE; any other label is sent unchanged |
| `SharpVty.VrfLabel` | sharpd/sharp_vty.c:204-220 | CMD_WARNING_CONFIG_FAILED with no request exactly when the VRF is missing; otherwise CMD_SUCCESS with one label request (the found VRF's id, AFI_IP for `ip` / AFI_IP6 for `ipv6`, the mapped label) |
| `SharpVty.FillStartPrefix` | sharpd/sharp_vty.c:241-251 | the cleared-then-filled local prefix is the start prefix |
| `SharpVty.RouteData.InstallRoutes` | sharpd/sharp_vty.c:136-191 | the fields of sg.r become those InstallEffect gives, the return code is its status, and its requests are appended to the log |
| `SharpVty.RouteData.RemoveRoutes` | sharpd/sharp_vty.c:234-258 | the fields of sg.r become those RemoveEffect gives, CMD_SUCCESS, and its one request is appended to the log |
| `SharpVty.RouteData.DataDump` | sharpd/sharp_vty.c:103-116 | reports the prefix and the three counters as stored, and the elapsed time t_end - t_start (timersub); changes nothing |

## Findings

| source | as written | input that shows it | evidently intended | confidence | as-written member | corrected member |
|---|---|---|---|---|---|---|
| sharpd/sharp_vty.c:108-113 | `Time: %ld.%ld` prints `tv_usec` without zero padding | an elapsed time of 0 s 5 µs prints "0.5", which reads as half a second | `%ld.%06ld`, so the fraction always has six digits | medium, not executed | `ElapsedText.AsWrittenReadsBackIff` | `ElapsedText.RenderElapsedRoundTrip` |

## Left out

- Command-line grammar parsing and DEFPY argument extraction. The parsed arguments arrive as values and the grammar's ranges are preconditions.
- Terminal output: `vty_out`, `prefix2str` and the "show debugging" handler. `DataDump` returns the values the dump prints, not the text. Only the elapsed-time field's text is modelled, in `ElapsedText`.
- `sharp_nht_data_dump` (sharpd/sharp_vty.c:85-95): its whole body is one call into the tracker's dump, whose code is not part of this model.
- `sharp_vty_init`: command registration only.
- The bodies of the install and remove helpers, the nexthop tracker, the zebra nexthop watch, `nhgc_find`, the VRF lookups and `vrf_label_add`. These are not part of this model. They appear as logged requests or as lookup tables.
- Route enumeration, address-overflow detection, asynchronous completion counting, the install/remove repeat state machine, and the capture of `t_start` / `t_end`. All of these happen outside these handlers. The timestamps are plain fields that no modelled handler writes.
- Concurrency: the handlers run one at a time on the CLI thread.
- Integer widths: the grammar's ranges keep `total_routes` (32-bit), `repeat` (32-bit, at most 2000) and `inst` (8-bit) from wrapping. The 64-bit bounds of the timeval fields are not modelled.
- `struct prefix` is modelled as its family, length and a 16-byte address union. `struct nexthop` is modelled as its type and 16-byte gateway union. Their other members are zeroed by the handlers' memsets and never written.
- `SharpVty.RouteData.InstallRoutes`: the install request records the nexthop list that `&sg.r.nhop_group` reaches at the time of the call, not the pointer itself. Later changes to a configured group, seen through the pointer, are not modelled.
- An empty configured nexthop-group is `Registered([])` rather than a NULL pointer. Both reach no nexthop.
- `SharpVty.LookupVrf`: the VRF table is two independent lookups, by id and by name. Whether the default VRF is also registered under the name "default" is not modelled.
- `ElapsedText.RenderElapsedRoundTrip`: the corrected rendering reads back only non-negative elapsed times. A dump taken while `t_end` is still before `t_start` (before the first run completes, `t_end` is zero) prints a negative value, and `PaddedReadsBackIff` shows that `%06ld` still misreads it when the microseconds are non-zero. No rendering that reads a negative timeval back is modelled, because the code gives no sign of what it should print. `RenderAsWritten`, `AsWrittenReading` and `AsWrittenReadsBackIff` cover negative elapsed times as well.
