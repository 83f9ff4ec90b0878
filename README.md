# DyNetKAT verification coordinator, modelled in Dafny

DyNetKAT checks network-policy properties written in a process calculus. It does
so by handing work to two outside engines. A rewrite engine (Maude) expands a
property template into a network term. An equivalence engine (the NetKAT tool)
decides whether two terms are equivalent. This project models the coordinator
class `DyNetKAT`: the string builders that produce the terms, the per-task
decision `process`, and the coordinator `decide`, which runs one task per
(observation point, property index) pair and collects the results in a map.

Layout:

- `wrappers.dfy` (`Wrappers`): `Option` for Python's `None`, and `Result` for a
  value or a raised exception.
- `pystrings.dfy` (`PyStrings`): the Python string built-ins the builders use,
  with Python's semantics. These are `find` (returns -1 when absent), slicing
  with a negative bound, `replace` (left to right, non-overlapping),
  `split`/`join`, and `str` of an integer.
- `terms.dfy` (`Terms`): `generate_outfile`, `compute_encapsulation_set` (an
  imperative loop proved against the function `EncapsulationSet`),
  `hbh_reachability_term`, `insert_inside_network` and `waypointing_term`.
- `dispatch.dfy` (`Dispatch`): the template expansion of `decide`, the
  `process` method and the `decide` method. `decide` keeps the source's two
  loops: dispatch, then collect. The inner `for` of the dispatch loop is its
  own method. Both are proved against `DecideResults`, a function of the
  request and the two engines.

Each engine is a function-valued parameter. A rewrite engine maps
`(file, module, property)` to `Option<string>`. An equivalence engine maps
`(term1, term2)` to `Option<bool>`. The worker pool runs independent tasks,
so the model runs the same tasks one after another. Python's dict iteration
order is replaced by an arbitrary choice of the next key. The contents of the
result map do not depend on that order.

Two details of the code that are easy to misread:

- The reachability query carries outer parentheses: the code builds
  `((a) . (N) . (b))`, not `(a) . (N) . (b)`. `DecideReachabilityExample`
  uses this form.
- The splice goes after the first `(` anywhere in the network, even one before
  the `*`, and only there, not into every iteration. When there is no `(`,
  `find` returns -1. The code then keeps `network[:-1]` and appends the whole
  network again (`InsertWithoutParen`).

## Model

| member | source | states |
|---|---|---|
| Terms.GenerateOutfile | src/python/dynetkat.py:19-20 | the path is `direct`, then `/output_`, the number and `.txt`: `direct` is its prefix and the number sits between the fixed parts |
| Terms.GenerateOutfileInjective | src/python/dynetkat.py:19-20 | within one working directory, different numbers give different paths |
| Dispatch.TranscriptNamesDistinct | src/python/dynetkat.py:52-59 | two engine runs with different (engine kind, observation point, counter) never share a transcript file, even when the point's name contains `_` |
| PyStrings.NatToStringInjective | src/python/dynetkat.py:52 | `str(counter)` is injective on non-negative integers |
| PyStrings.Find | src/python/dynetkat.py:38 | `find('(')` returns the index of the first `(`, or -1 exactly when there is none |
| PyStrings.JoinSplit | src/python/dynetkat.py:26 | joining the pieces of `split(',')` with `,` gives back the entry |
| PyStrings.SplitJoin | src/python/dynetkat.py:26 | splitting a comma-join of comma-free pieces gives back the pieces |
| Terms.ParseCommEntrySpec | src/python/dynetkat.py:26 | `channel, flow_table = x.split(',')` succeeds with `(a, b)` exactly when the entry is `a,b` with no other comma |
| Terms.ComputeEncapsulationSet | src/python/dynetkat.py:23-29 | the loop yields `EncapsulationSet(comm)`: the appended send/receive terms, or an error at the first entry that does not unpack |
| Terms.EncapsulationSetShape | src/python/dynetkat.py:23-29 | the set is defined exactly when every entry unpacks; it then has `2*|comm|` terms, element `2i` is `(ch_i ! (ft_i))` and element `2i+1` is `(ch_i ? (ft_i))` |
| Terms.EncapsulationSetError | src/python/dynetkat.py:25-26 | a failure names the first entry that does not split into exactly two pieces, and every earlier entry does split |
| Terms.HbhReachabilityTerm | src/python/dynetkat.py:32-33 | the term is 14 characters longer than its three inputs; it opens with `((in) . (` and closes with `) . (out))` |
| Terms.ReachabilityDeterminesNetwork | src/python/dynetkat.py:32-33 | for fixed packets, different networks give different reachability terms |
| Terms.InsertInsideNetwork | src/python/dynetkat.py:36-40 | a network without `*` comes back unchanged |
| Terms.InsertAtFirstParen | src/python/dynetkat.py:37-39 | with a `*` and the first `(` at `k`: the result is `net[..k] + " ((" + t + ") . " + net[k+1..]`, keeps `net[..k]` verbatim, and has length `|net|+|t|+6` |
| Terms.InsertWithoutParen | src/python/dynetkat.py:37-39 | with a `*` and no `(`: the result is `net[..|net|-1] + " ((" + t + ") . " + net`, of length `2|net|+|t|+6` |
| Terms.StripParens | src/python/dynetkat.py:44-45 | the stripped packet has no parentheses, and a packet without parentheses comes back unchanged |
| Terms.StripParensConcat | src/python/dynetkat.py:44-45 | stripping a concatenation strips each part: the two `replace` calls work character by character |
| Terms.StripParensChar | src/python/dynetkat.py:44-45 | a parenthesis is dropped and every other character is kept, so the stripped packet is the packet with exactly its parentheses removed, in order |
| Terms.ExclusionAtFirstParen | src/python/dynetkat.py:44-45 | the exclusion factor splices `~ (p)`, with `p`'s parentheses stripped, at the first `(`; its length is `|net|+|strip(p)|+10` |
| Terms.WaypointingTerm | src/python/dynetkat.py:43-46 | without `*` in the network, the term is `(in) . (net) . (wp) . (net) . (out)` |
| Terms.WaypointingLength | src/python/dynetkat.py:43-46 | with a `*` and a `(`, the length is the inputs' lengths plus the network counted twice, plus both stripped packets, plus 42 |
| Terms.WaypointingJoin | src/python/dynetkat.py:43-46 | the waypointing term is the five factors `in`, `X_out`, `wp`, `X_in`, `out`, each in parentheses and joined by ` . ` |
| Terms.WaypointingSwap | src/python/dynetkat.py:43-46 | swapping the packets reverses the order of the five factors of the unswapped term: the outer packets trade places, so do the two exclusion factors, and the waypoint stays in the middle |
| Dispatch.ExpandPlaceholder | src/python/dynetkat.py:91 | `@Program` between brace-free text becomes the program verbatim, braces included, because it is replaced last |
| Dispatch.ExpandComprehension | src/python/dynetkat.py:90-91 | in `a{b@Program c}d` the `{` is deleted, the `}` becomes `, RSet:TermSet`, and the program's own braces survive |
| Dispatch.ExpandTemplate | src/python/dynetkat.py:91 | for any template written as `@`-free pieces joined by `@Program`: each piece has its `{` deleted and its `}` turned into `, RSet:TermSet`, no brace is left in the pieces, and the program goes verbatim into every gap, braces included |
| Dispatch.ExpandWithoutPlaceholder | src/python/dynetkat.py:91 | a template without `@` expands to a brace-free string that does not depend on the program |
| Dispatch.Process | src/python/dynetkat.py:49-76 | a failed rewrite gives `None` and no equivalence query; type `r` asks about `(reach, "zero")`; type `w` asks about `(reach + " + " + W, W)`; the result is the engine's verdict, and `None` exactly when either engine failed; the transcripts written are the Maude one and, if consulted, the NetKAT one (the pair asked about and the transcripts are ghost outputs) |
| Dispatch.DispatchPoint | src/python/dynetkat.py:89-92 | adds one pending task per property index of `q`, with the expanded template and the program term `delta{Δh}(pi{depth}(program))` |
| Dispatch.DispatchTasks | src/python/dynetkat.py:86-92 | the pending tasks have exactly the keys `(q, i)` with `q` observed and having properties, and `i` one of `q`'s property indices |
| Dispatch.CollectResults | src/python/dynetkat.py:97-101 | every pending task's key gets exactly the result of `process` for that key |
| Dispatch.Decide | src/python/dynetkat.py:79-101 | raises exactly when an encapsulation entry is malformed; otherwise the key set is `TaskKeys(data)` and each value is the `process` result for its key |
| Dispatch.KeysOfSize | src/python/dynetkat.py:86-92 | there is one key per property of each point that is both observed and given properties |
| Dispatch.DecideCount | src/python/dynetkat.py:86-101 | the result map has `Σ |properties[q]|` entries over the observed points |
| Dispatch.DecideEmpty | src/python/dynetkat.py:86-89 | with no properties, or no observed points, the result map is empty |
| Dispatch.DecideSkipsUnobserved | src/python/dynetkat.py:87-88 | properties of a point missing from `in_packets` contribute no entry |
| Dispatch.DecideLocality | src/python/dynetkat.py:92 | an entry depends only on the engines' answers to that entry's own questions |
| Dispatch.DecideRewriteAlwaysFails | src/python/dynetkat.py:53-57 | a rewrite engine that always fails makes every task runnable and every entry `None` |
| Dispatch.DecideReachabilityExample | src/python/dynetkat.py:60-62 | for one reachability property of `p1`, packets `a`/`b`, network `N` and a verdict of true for `((a) . (N) . (b))` against `zero`, the map is `{(p1, 0): true}` |

## Left out

- Pool creation, `apply_async`, `close`/`join` and `get` (src/python/dynetkat.py:82-99): the tasks are independent, so they run sequentially. Scheduling, blocking and hung workers are not modelled.
- The constructor (src/python/dynetkat.py:10-16): it only stores configuration. `direct` is passed to the methods that need it, and `num_threads` only sizes the pool.
- `MaudeComm` and `NetKATComm` are not part of this model. Their answers are the engine parameters. The transcript files they write are not modelled beyond their paths, which `Process` returns.
- `error_handling` is not part of this model. It only logs, so the model treats it as doing nothing.
- Dispatch.Process: requires that, once the rewrite engine has returned a term, the property type is `"r"` or `"w"` and `q` is a key of both packet maps. Otherwise Python raises `UnboundLocalError` or `KeyError`. When the rewrite fails, nothing is demanded. `decide` states the same demand for every dispatched task (`DecideRunnable`); the exception that would reach its caller is not modelled.
- Dispatch.Decide: a malformed `comm` entry is returned as `Err(entry)`, in place of Python's `ValueError`.
- The order of the result map: Python's dict keeps insertion order (`in_packets` order, then property index). A Dafny map has no order, so only the keys and values are modelled.
- Observation points are strings, so `str(q)` is `q` itself. The unfolding depth is an integer, printed with `str`.
