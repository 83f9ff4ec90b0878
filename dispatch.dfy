/**
 * The per-task decision (`process`) and the coordinator (`decide`) of
 * DyNetKAT. The rewrite engine (Maude) and the equivalence engine (the NetKAT
 * tool) are parameters: a rewrite engine maps a template file, a module name
 * and an expanded property to a network term or `None`; an equivalence engine
 * maps two terms to a verdict or `None`. The worker pool of the source is
 * replaced by the sequential evaluation of the same independent tasks.
 */
module Dispatch {
  import opened Wrappers
  import opened PyStrings
  import opened Terms

  type RewriteEngine = (string, string, string) -> Option<string>
  type EquivalenceEngine = (string, string) -> Option<bool>

  /** One property of an observation point: its type (`"r"` reachability or
      `"w"` waypointing), its template, the waypoint, the unfolding depth. */
  datatype PropertySpec = PropertySpec(propType: string, template: string, rrOrWp: string, depth: int)

  /** The `data` dictionary a verification run is given. */
  datatype Request = Request(
    fileName: string,
    moduleName: string,
    program: string,
    inPackets: map<string, string>,
    outPackets: map<string, string>,
    properties: map<string, seq<PropertySpec>>,
    comm: seq<string>)

  /** A result key: an observation point and the index of one of its properties. */
  type Key = (string, nat)

  /** The arguments `decide` hands to one `process` call. */
  datatype Task = Task(propType: string, propMaude: string, rrOrWp: string)

  // ---------------------------------------------------------------------
  // Property expansion

  /** The encapsulated, unfolded program `delta{Δh}(pi{depth}(program))`. */
  function ProgramTerm(deltaH: seq<string>, depth: int, program: string): string
  {
    "delta{" + Join(deltaH, ", ") + "}(pi{" + IntToString(depth) + "}(" + program + "))"
  }

  /** The template with every `{` deleted, every `}` turned into
      `, RSet:TermSet`, and only then `@Program` replaced by the program. */
  function ExpandProperty(template: string, program: string): string
  {
    var noOpen := ReplaceAll(template, "{", "");
    var noBraces := ReplaceAll(noOpen, "}", ", RSet:TermSet");
    ReplaceAll(noBraces, "@Program", program)
  }

  /** Text with no brace and no `@` is copied verbatim by the expansion. */
  predicate Plain(s: string)
  {
    '{' !in s && '}' !in s && '@' !in s
  }

  /** Braces introduced by the program survive, because the placeholder is
      replaced last: one placeholder between plain text becomes the program. */
  lemma ExpandPlaceholder(before: string, after: string, program: string)
    requires Plain(before) && Plain(after)
    ensures ExpandProperty(before + "@Program" + after, program) == before + program + after
  {
    var t := before + "@Program" + after;
    assert '{' !in t && '}' !in t;
    ReplaceAbsent(t, "{", "");
    ReplaceAbsent(t, "}", ", RSet:TermSet");
    ReplaceOnce(before, "@Program", after, program);
  }

  /** One occurrence of a pattern, between stretches that cannot start one,
      is the only thing replaced. */
  lemma ReplaceOnce(x: string, pat: string, y: string, rep: string)
    requires pat != [] && pat[0] !in x && pat[0] !in y
    ensures ReplaceAll(x + pat + y, pat, rep) == x + rep + y
  {
    ReplaceAfterPiece(x, pat, y, rep);
    ReplaceAbsent(y, pat, rep);
  }

  /** A set comprehension around the placeholder: its braces become the
      result-set syntax, and the program's own braces are kept. */
  lemma ExpandComprehension(before: string, inner1: string, inner2: string, after: string, program: string)
    requires Plain(before) && Plain(inner1) && Plain(inner2) && Plain(after)
    ensures ExpandProperty(before + "{" + inner1 + "@Program" + inner2 + "}" + after, program)
      == before + inner1 + program + inner2 + ", RSet:TermSet" + after
  {
    DeleteOpenBrace(before, inner1, inner2, after);
    ReplaceCloseBrace(before, inner1, inner2, after);
    assert '@' !in before + inner1;
    ReplaceOnceBeforeThree(before + inner1, "@Program", inner2, ", RSet:TermSet", after, program);
  }

  /** Regrouping a concatenation of six pieces after its first piece. */
  lemma RegroupSix(p1: string, p2: string, p3: string, p4: string, p5: string, p6: string)
    ensures p1 + p2 + p3 + p4 + p5 + p6 == p1 + (p2 + p3 + p4 + p5 + p6)
  {
  }

  /** Deleting the only `{` of a template. */
  lemma DeleteOpenBrace(before: string, inner1: string, inner2: string, after: string)
    requires Plain(before) && Plain(inner1) && Plain(inner2) && Plain(after)
    ensures ReplaceAll(before + "{" + inner1 + "@Program" + inner2 + "}" + after, "{", "")
      == before + inner1 + "@Program" + inner2 + "}" + after
  {
    var rest := inner1 + "@Program" + inner2 + "}" + after;
    assert '{' !in rest;
    RegroupSix(before + "{", inner1, "@Program", inner2, "}", after);
    DeleteOnly(before, '{', rest);
    RegroupSix(before, inner1, "@Program", inner2, "}", after);
  }

  /** Deleting the only occurrence of a character. */
  lemma DeleteOnly(x: string, c: char, y: string)
    requires c !in x && c !in y
    ensures ReplaceAll(x + [c] + y, [c], []) == x + y
  {
    ReplaceOnce(x, [c], y, []);
    assert x + [] == x;
  }

  /** Turning the only `}` of a template into the result-set declaration. */
  lemma ReplaceCloseBrace(before: string, inner1: string, inner2: string, after: string)
    requires Plain(before) && Plain(inner1) && Plain(inner2) && Plain(after)
    ensures ReplaceAll(before + inner1 + "@Program" + inner2 + "}" + after, "}", ", RSet:TermSet")
      == before + inner1 + "@Program" + inner2 + ", RSet:TermSet" + after
  {
    var front := before + inner1 + "@Program" + inner2;
    assert '}' !in front;
    ReplaceOnce(front, "}", after, ", RSet:TermSet");
  }

  /** `ReplaceOnce` with the text after the occurrence given in three pieces. */
  lemma ReplaceOnceBeforeThree(x: string, pat: string, y1: string, y2: string, y3: string, rep: string)
    requires pat != [] && pat[0] !in x && pat[0] !in y1 && pat[0] !in y2 && pat[0] !in y3
    ensures ReplaceAll(x + pat + y1 + y2 + y3, pat, rep) == x + rep + y1 + y2 + y3
  {
    assert pat[0] !in y1 + y2 + y3;
    ReplaceOnce(x, pat, y1 + y2 + y3, rep);
    assert x + pat + y1 + y2 + y3 == x + pat + (y1 + y2 + y3);
    assert x + rep + (y1 + y2 + y3) == x + rep + y1 + y2 + y3;
  }

  /** Any template: split at its `@Program` placeholders, the `@`-free
      pieces between them get their braces rewritten, and the program goes
      verbatim into every gap, its own braces included. */
  lemma ExpandTemplate(pieces: seq<string>, program: string)
    requires forall i :: 0 <= i < |pieces| ==> '@' !in pieces[i]
    ensures ExpandProperty(Join(pieces, "@Program"), program)
      == Join(ReplaceEach(ReplaceEach(pieces, "{", ""), "}", ", RSet:TermSet"), program)
    ensures var expanded := ReplaceEach(ReplaceEach(pieces, "{", ""), "}", ", RSet:TermSet");
      forall i :: 0 <= i < |expanded| ==> '{' !in expanded[i] && '}' !in expanded[i]
  {
    var noOpen := ReplaceEach(pieces, "{", "");
    var expanded := ReplaceEach(noOpen, "}", ", RSet:TermSet");
    ReplaceCharInJoin(pieces, "@Program", '{', "");
    ReplaceCharInJoin(noOpen, "@Program", '}', ", RSet:TermSet");
    forall i | 0 <= i < |expanded|
      ensures '@' !in expanded[i] && '{' !in expanded[i] && '}' !in expanded[i]
    {
      ExpandedPieceFree(pieces[i]);
    }
    ReplaceSeparator(expanded, "@Program", program);
  }

  /** A piece with its braces rewritten has no brace left, and gains no `@`. */
  lemma ExpandedPieceFree(piece: string)
    ensures var e := ReplaceAll(ReplaceAll(piece, "{", ""), "}", ", RSet:TermSet");
      '{' !in e && '}' !in e && ('@' !in piece ==> '@' !in e)
  {
    var noOpen := ReplaceAll(piece, "{", "");
    ReplaceCharRemoves(piece, '{', "");
    ReplaceKeepsAbsent(noOpen, "}", ", RSet:TermSet", '{');
    ReplaceCharRemoves(noOpen, '}', ", RSet:TermSet");
    if '@' !in piece {
      ReplaceKeepsAbsent(piece, "{", "", '@');
      ReplaceKeepsAbsent(noOpen, "}", ", RSet:TermSet", '@');
    }
  }

  /** A template without `@` expands to a brace-free string, whatever the program. */
  lemma ExpandWithoutPlaceholder(template: string, program: string)
    requires '@' !in template
    ensures '{' !in ExpandProperty(template, program) && '}' !in ExpandProperty(template, program)
    ensures ExpandProperty(template, program) == ExpandProperty(template, "")
  {
    var noOpen := ReplaceAll(template, "{", "");
    ReplaceCharRemoves(template, '{', "");
    ReplaceKeepsAbsent(template, "{", "", '@');
    var noBraces := ReplaceAll(noOpen, "}", ", RSet:TermSet");
    ReplaceKeepsAbsent(noOpen, "}", ", RSet:TermSet", '{');
    ReplaceCharRemoves(noOpen, '}', ", RSet:TermSet");
    ReplaceKeepsAbsent(noOpen, "}", ", RSet:TermSet", '@');
    ReplaceAbsent(noBraces, "@Program", program);
    ReplaceAbsent(noBraces, "@Program", "");
  }

  // ---------------------------------------------------------------------
  // One task

  /** The transcript path of one engine run for observation point `q` and
      property `counter` (`kind` is `"maude"` or `"netkat"`). */
  function TranscriptName(direct: string, kind: string, q: string, counter: nat): string
  {
    GenerateOutfile(direct, kind + "_" + q + "_" + NatToString(counter))
  }

  /** `x + [c] + y` determines `x` and `y` when `c` does not occur in `y`. */
  lemma SplitAtLast(x1: string, y1: string, x2: string, y2: string, c: char)
    requires c !in y1 && c !in y2
    requires x1 + [c] + y1 == x2 + [c] + y2
    ensures x1 == x2 && y1 == y2
  {
    var s := x1 + [c] + y1;
    SuffixLength(x1, y1, x2, y2, c);
    SuffixLength(x2, y2, x1, y1, c);
    assert x1 == s[..|x1|] && x2 == s[..|x2|];
    assert y1 == s[|x1| + 1..] && y2 == s[|x2| + 1..];
  }

  /** The suffix after the last separator is no shorter in one split than in another. */
  lemma SuffixLength(x1: string, y1: string, x2: string, y2: string, c: char)
    requires c !in y2
    requires x1 + [c] + y1 == x2 + [c] + y2
    ensures |y1| >= |y2|
  {
    var s := x1 + [c] + y1;
    assert s[|x1|] == c;
    assert forall i :: |x2| < i < |s| ==> s[i] == y2[i - |x2| - 1];
  }

  /** The engine kind is recognised from its first letter. */
  lemma KindPrefix(kind1: string, q1: string, d1: string, kind2: string, q2: string, d2: string)
    requires kind1 == "maude" || kind1 == "netkat"
    requires kind2 == "maude" || kind2 == "netkat"
    requires kind1 + "_" + q1 + "_" + d1 == kind2 + "_" + q2 + "_" + d2
    ensures kind1 == kind2 && q1 + "_" + d1 == q2 + "_" + d2
  {
    var n1, n2 := kind1 + "_" + q1 + "_" + d1, kind2 + "_" + q2 + "_" + d2;
    assert n1[0] == kind1[0] && n2[0] == kind2[0];
    assert q1 + "_" + d1 == n1[|kind1| + 1..];
    assert q2 + "_" + d2 == n2[|kind2| + 1..];
  }

  /** Different engine runs never share a transcript file. */
  lemma TranscriptNamesDistinct(direct: string, kind1: string, q1: string, c1: nat, kind2: string, q2: string, c2: nat)
    requires kind1 == "maude" || kind1 == "netkat"
    requires kind2 == "maude" || kind2 == "netkat"
    requires TranscriptName(direct, kind1, q1, c1) == TranscriptName(direct, kind2, q2, c2)
    ensures kind1 == kind2 && q1 == q2 && c1 == c2
  {
    var d1, d2 := NatToString(c1), NatToString(c2);
    GenerateOutfileInjective(direct, kind1 + "_" + q1 + "_" + d1, kind2 + "_" + q2 + "_" + d2);
    KindPrefix(kind1, q1, d1, kind2, q2, d2);
    assert '_' !in d1 && '_' !in d2;
    SplitAtLast(q1, d1, q2, d2, '_');
    NatToStringInjective(c1, c2);
  }

  /** What `process` needs so as not to raise: once the rewrite engine has
      produced a term, the property type must be `"r"` or `"w"` (otherwise
      `result` is unbound) and both packet maps must hold `q`. */
  predicate Runnable(data: Request, q: string, propType: string, propMaude: string, rewrite: RewriteEngine)
  {
    rewrite(data.fileName, data.moduleName, propMaude).Some? ==>
      (propType == "r" || propType == "w") && q in data.inPackets && q in data.outPackets
  }

  /** The pair of terms put to the equivalence engine for a network term:
      reachability asks whether `((in) . (net) . (out))` is `zero`;
      waypointing whether `R + W` equals `W`. */
  function EquivalenceQuery(propType: string, network: string, inPacket: string, outPacket: string, waypoint: string): (string, string)
  {
    var reach := HbhReachabilityTerm(inPacket, network, outPacket);
    if propType == "r" then (reach, "zero")
    else
      var wp := WaypointingTerm(inPacket, network, outPacket, waypoint);
      (reach + " + " + wp, wp)
  }

  /** The question the task puts to the equivalence engine, if it gets that far. */
  function TaskQuery(data: Request, q: string, propType: string, propMaude: string, rrOrWp: string, rewrite: RewriteEngine): Option<(string, string)>
    requires Runnable(data, q, propType, propMaude, rewrite)
  {
    match rewrite(data.fileName, data.moduleName, propMaude)
    case None => None
    case Some(network) => Some(EquivalenceQuery(propType, network, data.inPackets[q], data.outPackets[q], rrOrWp))
  }

  /** The task's result: the verdict, or `None` when either engine failed. */
  function TaskResult(data: Request, q: string, propType: string, propMaude: string, rrOrWp: string,
                      rewrite: RewriteEngine, equiv: EquivalenceEngine): Option<bool>
    requires Runnable(data, q, propType, propMaude, rewrite)
  {
    match TaskQuery(data, q, propType, propMaude, rrOrWp, rewrite)
    case None => None
    case Some((term1, term2)) => equiv(term1, term2)
  }

  /** `process`: ask the rewrite engine for the network term, build the terms
      the property type calls for and ask the equivalence engine about them.
      Also returns the pair of terms asked about (`None` when the equivalence
      engine is not consulted) and the transcript files the engines write. */
  method Process(direct: string, q: string, counter: nat, propType: string, propMaude: string, rrOrWp: string,
                 data: Request, rewrite: RewriteEngine, equiv: EquivalenceEngine)
    returns (result: Option<bool>, ghost asked: Option<(string, string)>, ghost transcripts: seq<string>)
    requires Runnable(data, q, propType, propMaude, rewrite)
    ensures rewrite(data.fileName, data.moduleName, propMaude).None? ==> result.None? && asked.None?
    ensures rewrite(data.fileName, data.moduleName, propMaude).Some? && propType == "r" ==>
      asked == Some((HbhReachabilityTerm(data.inPackets[q], rewrite(data.fileName, data.moduleName, propMaude).value, data.outPackets[q]), "zero"))
    ensures rewrite(data.fileName, data.moduleName, propMaude).Some? && propType == "w" ==>
      var network := rewrite(data.fileName, data.moduleName, propMaude).value;
      var reach := HbhReachabilityTerm(data.inPackets[q], network, data.outPackets[q]);
      var wp := WaypointingTerm(data.inPackets[q], network, data.outPackets[q], rrOrWp);
      asked == Some((reach + " + " + wp, wp))
    ensures asked.Some? ==> result == equiv(asked.value.0, asked.value.1)
    ensures result.None? <==> asked.None? || equiv(asked.value.0, asked.value.1).None?
    ensures asked == TaskQuery(data, q, propType, propMaude, rrOrWp, rewrite)
    ensures result == TaskResult(data, q, propType, propMaude, rrOrWp, rewrite, equiv)
    ensures transcripts ==
      [TranscriptName(direct, "maude", q, counter)]
      + (if asked.Some? then [TranscriptName(direct, "netkat", q, counter)] else [])
  {
    var errorOccurred := false;
    asked := None;
    result := None;
    transcripts := [TranscriptName(direct, "maude", q, counter)];
    var prop := rewrite(data.fileName, data.moduleName, propMaude);
    if prop.None? {
      errorOccurred := true;
    } else {
      transcripts := transcripts + [TranscriptName(direct, "netkat", q, counter)];
      var term1, term2;
      var network, inPacket, outPacket := prop.value, data.inPackets[q], data.outPackets[q];
      if propType == "r" {
        term1 := HbhReachabilityTerm(inPacket, network, outPacket);
        term2 := "zero";
      } else {
        term1 := HbhReachabilityTerm(inPacket, network, outPacket) + " + "
                 + WaypointingTerm(inPacket, network, outPacket, rrOrWp);
        term2 := WaypointingTerm(inPacket, network, outPacket, rrOrWp);
      }
      asked := Some((term1, term2));
      result := equiv(term1, term2);
      if result.None? {
        errorOccurred := true;
      }
    }
    if errorOccurred {
      return None, asked, transcripts;
    }
  }

  // ---------------------------------------------------------------------
  // The coordinator

  /** The keys `(q, i)` for the observation points in `points` that have
      properties, one per property index. */
  function KeysOf(points: set<string>, properties: map<string, seq<PropertySpec>>): set<Key>
  {
    set q, i: nat | q in points && q in properties && i < |properties[q]| :: (q, i)
  }

  /** The keys `(q, i)` of the first `n` properties of `q`. */
  function KeysUpTo(q: string, n: nat): set<Key>
  {
    set i: nat | i < n :: (q, i)
  }

  /** Visiting one more observation point adds the keys of its properties. */
  lemma KeysOfVisit(points: set<string>, q: string, properties: map<string, seq<PropertySpec>>)
    ensures KeysOf(points + {q}, properties)
      == KeysOf(points, properties) + (if q in properties then KeysUpTo(q, |properties[q]|) else {})
  {
  }

  /** Dispatching one more property of `q` adds its key. */
  lemma KeysUpToStep(q: string, n: nat)
    ensures KeysUpTo(q, n + 1) == KeysUpTo(q, n) + {(q, n)}
  {
  }

  /** The keys of one run: observation points both observed and given properties. */
  function TaskKeys(data: Request): set<Key>
  {
    KeysOf(data.inPackets.Keys, data.properties)
  }

  /** The task `decide` dispatches for a key, given the encapsulation set. */
  function PendingTask(data: Request, deltaH: seq<string>, k: Key): Task
    requires k.0 in data.properties && k.1 < |data.properties[k.0]|
  {
    var spec := data.properties[k.0][k.1];
    Task(spec.propType, ExpandProperty(spec.template, ProgramTerm(deltaH, spec.depth, data.program)), spec.rrOrWp)
  }

  /** No dispatched task raises. */
  predicate TasksRunnable(data: Request, deltaH: seq<string>, rewrite: RewriteEngine)
  {
    forall k | k in TaskKeys(data) ::
      var task := PendingTask(data, deltaH, k);
      Runnable(data, k.0, task.propType, task.propMaude, rewrite)
  }

  /** What `decide` needs so that no task raises: a well-formed encapsulation
      list makes every task runnable. */
  predicate DecideRunnable(data: Request, rewrite: RewriteEngine)
  {
    EncapsulationSet(data.comm).Ok? ==> TasksRunnable(data, EncapsulationSet(data.comm).value, rewrite)
  }

  /** The result of a task dispatched for key `k`. */
  function KeyResult(data: Request, deltaH: seq<string>, k: Key, rewrite: RewriteEngine, equiv: EquivalenceEngine): Option<bool>
    requires k in TaskKeys(data) && TasksRunnable(data, deltaH, rewrite)
  {
    var task := PendingTask(data, deltaH, k);
    TaskResult(data, k.0, task.propType, task.propMaude, task.rrOrWp, rewrite, equiv)
  }

  /** The result map of `decide`, or the comm entry that makes it raise. */
  function DecideResults(data: Request, rewrite: RewriteEngine, equiv: EquivalenceEngine)
    : Result<map<Key, Option<bool>>, string>
    requires DecideRunnable(data, rewrite)
  {
    match EncapsulationSet(data.comm)
    case Err(entry) => Err(entry)
    case Ok(deltaH) => Ok(map k | k in TaskKeys(data) :: KeyResult(data, deltaH, k, rewrite, equiv))
  }

  /** Every pending task is the one dispatched for its key. */
  predicate Dispatched(data: Request, deltaH: seq<string>, results: map<Key, Task>)
  {
    forall k | k in results :: k.0 in data.properties && k.1 < |data.properties[k.0]|
      && results[k] == PendingTask(data, deltaH, k)
  }

  /** The inner loop of `decide`'s first loop: one pending task per property of `q`. */
  method DispatchPoint(data: Request, deltaH: seq<string>, q: string, pending: map<Key, Task>)
    returns (results: map<Key, Task>)
    requires q in data.properties
    requires Dispatched(data, deltaH, pending)
    ensures results.Keys == pending.Keys + KeysUpTo(q, |data.properties[q]|)
    ensures Dispatched(data, deltaH, results)
  {
    results := pending;
    var props := data.properties[q];
    for counter := 0 to |props|
      invariant results.Keys == pending.Keys + KeysUpTo(q, counter)
      invariant Dispatched(data, deltaH, results)
    {
      var spec := props[counter];
      var program := ProgramTerm(deltaH, spec.depth, data.program);
      var prop := ExpandProperty(spec.template, program);
      results := results[(q, counter) := Task(spec.propType, prop, spec.rrOrWp)];
      KeysUpToStep(q, counter);
    }
  }

  /** The first loop of `decide`: one pending task per key, for every
      observed point that has properties. */
  method DispatchTasks(data: Request, deltaH: seq<string>) returns (results: map<Key, Task>)
    ensures results.Keys == TaskKeys(data)
    ensures Dispatched(data, deltaH, results)
  {
    results := map[];
    var unvisited := data.inPackets.Keys;
    ghost var visited: set<string> := {};
    while unvisited != {}
      invariant visited + unvisited == data.inPackets.Keys
      invariant results.Keys == KeysOf(visited, data.properties)
      invariant Dispatched(data, deltaH, results)
      decreases unvisited
    {
      var q :| q in unvisited;
      KeysOfVisit(visited, q, data.properties);
      if q in data.properties {
        results := DispatchPoint(data, deltaH, q, results);
      }
      visited := visited + {q};
      unvisited := unvisited - {q};
    }
  }

  /** The second loop of `decide`: runs every pending task and records its result. */
  method CollectResults(direct: string, data: Request, results: map<Key, Task>,
                        rewrite: RewriteEngine, equiv: EquivalenceEngine)
    returns (returnDict: map<Key, Option<bool>>)
    requires forall k | k in results :: Runnable(data, k.0, results[k].propType, results[k].propMaude, rewrite)
    ensures returnDict.Keys == results.Keys
    ensures forall k | k in results ::
      returnDict[k] == TaskResult(data, k.0, results[k].propType, results[k].propMaude, results[k].rrOrWp, rewrite, equiv)
  {
    returnDict := map[];
    var uncollected := results.Keys;
    while uncollected != {}
      invariant uncollected <= results.Keys
      invariant returnDict.Keys == results.Keys - uncollected
      invariant forall k | k in returnDict ::
        returnDict[k] == TaskResult(data, k.0, results[k].propType, results[k].propMaude, results[k].rrOrWp, rewrite, equiv)
      decreases uncollected
    {
      var k :| k in uncollected;
      var task := results[k];
      var v, _, _ := Process(direct, k.0, k.1, task.propType, task.propMaude, task.rrOrWp, data, rewrite, equiv);
      returnDict := returnDict[k := v];
      uncollected := uncollected - {k};
    }
  }

  /** Collecting the dispatched tasks gives exactly the map of key results. */
  lemma CollectedAllKeys(data: Request, deltaH: seq<string>, results: map<Key, Task>,
                         returnDict: map<Key, Option<bool>>, rewrite: RewriteEngine, equiv: EquivalenceEngine)
    requires results.Keys == TaskKeys(data) && Dispatched(data, deltaH, results)
    requires TasksRunnable(data, deltaH, rewrite)
    requires returnDict.Keys == results.Keys
    requires forall k | k in results ::
      returnDict[k] == TaskResult(data, k.0, results[k].propType, results[k].propMaude, results[k].rrOrWp, rewrite, equiv)
    ensures returnDict == map k | k in TaskKeys(data) :: KeyResult(data, deltaH, k, rewrite, equiv)
  {
  }

  /** `decide`: computes the encapsulation set once, dispatches one task per
      key and collects every task's result; a malformed comm entry raises. */
  method Decide(direct: string, data: Request, rewrite: RewriteEngine, equiv: EquivalenceEngine)
    returns (r: Result<map<Key, Option<bool>>, string>)
    requires DecideRunnable(data, rewrite)
    ensures r.Err? <==> EncapsulationSet(data.comm).Err?
    ensures r.Ok? ==> r.value.Keys == TaskKeys(data)
    ensures r == DecideResults(data, rewrite, equiv)
  {
    var encapsulation := ComputeEncapsulationSet(data.comm);
    if encapsulation.Err? {
      return Err(encapsulation.error);
    }
    var deltaH := encapsulation.value;
    var results := DispatchTasks(data, deltaH);
    var returnDict := CollectResults(direct, data, results, rewrite, equiv);
    CollectedAllKeys(data, deltaH, results, returnDict, rewrite, equiv);
    return Ok(returnDict);
  }

  // ---------------------------------------------------------------------
  // Properties of the result map

  /** The number of tasks for the observation points in `points`. */
  ghost function TaskCount(points: set<string>, properties: map<string, seq<PropertySpec>>): nat
  {
    if points == {} then 0
    else
      var q :| q in points;
      (if q in properties then |properties[q]| else 0) + TaskCount(points - {q}, properties)
  }

  /** A point has exactly as many keys as it has properties. */
  lemma {:induction false} KeysUpToSize(q: string, n: nat)
    ensures |KeysUpTo(q, n)| == n
  {
    if n > 0 {
      KeysUpToStep(q, n - 1);
      KeysUpToSize(q, n - 1);
    } else {
      assert KeysUpTo(q, n) == {};
    }
  }

  /** One key per property of every point both observed and given properties. */
  lemma {:induction false} KeysOfSize(points: set<string>, properties: map<string, seq<PropertySpec>>)
    ensures |KeysOf(points, properties)| == TaskCount(points, properties)
    decreases |points|
  {
    if points == {} {
      assert KeysOf(points, properties) == {};
    } else {
      var q :| q in points && TaskCount(points, properties)
        == (if q in properties then |properties[q]| else 0) + TaskCount(points - {q}, properties);
      var others := points - {q};
      KeysOfSize(others, properties);
      KeysOfVisitSize(others, q, properties);
      assert others + {q} == points;
    }
  }

  /** Visiting a new point adds as many keys as it has properties. */
  lemma KeysOfVisitSize(points: set<string>, q: string, properties: map<string, seq<PropertySpec>>)
    requires q !in points
    ensures |KeysOf(points + {q}, properties)|
      == |KeysOf(points, properties)| + (if q in properties then |properties[q]| else 0)
  {
    KeysOfVisit(points, q, properties);
    if q in properties {
      KeysUpToSize(q, |properties[q]|);
      assert KeysOf(points, properties) !! KeysUpTo(q, |properties[q]|);
    } else {
      assert KeysOf(points + {q}, properties) == KeysOf(points, properties);
    }
  }

  /** The result map has one entry per property of every observed point. */
  lemma DecideCount(data: Request, rewrite: RewriteEngine, equiv: EquivalenceEngine)
    requires DecideRunnable(data, rewrite)
    requires DecideResults(data, rewrite, equiv).Ok?
    ensures |DecideResults(data, rewrite, equiv).value| == TaskCount(data.inPackets.Keys, data.properties)
  {
    var m := DecideResults(data, rewrite, equiv).value;
    assert m.Keys == TaskKeys(data);
    KeysOfSize(data.inPackets.Keys, data.properties);
  }

  /** Without properties, or without observed points, the map is empty. */
  lemma DecideEmpty(data: Request, rewrite: RewriteEngine, equiv: EquivalenceEngine)
    requires DecideRunnable(data, rewrite)
    requires data.properties == map[] || data.inPackets == map[]
    ensures DecideResults(data, rewrite, equiv).Ok? ==> DecideResults(data, rewrite, equiv).value == map[]
  {
    assert TaskKeys(data) == {};
  }

  /** Properties of a point that is not observed yield no entry. */
  lemma DecideSkipsUnobserved(data: Request, rewrite: RewriteEngine, equiv: EquivalenceEngine, q: string, i: nat)
    requires DecideRunnable(data, rewrite)
    requires DecideResults(data, rewrite, equiv).Ok?
    requires q !in data.inPackets
    ensures (q, i) !in DecideResults(data, rewrite, equiv).value
  {
  }

  /** Each entry depends only on how the engines answer that entry's own
      questions: two runs whose engines agree there agree on the entry. */
  lemma DecideLocality(data: Request, rewrite1: RewriteEngine, equiv1: EquivalenceEngine,
                       rewrite2: RewriteEngine, equiv2: EquivalenceEngine, k: Key)
    requires DecideRunnable(data, rewrite1) && DecideRunnable(data, rewrite2)
    requires DecideResults(data, rewrite1, equiv1).Ok? && k in TaskKeys(data)
    requires
      var task := PendingTask(data, EncapsulationSet(data.comm).value, k);
      var answer := rewrite1(data.fileName, data.moduleName, task.propMaude);
      && answer == rewrite2(data.fileName, data.moduleName, task.propMaude)
      && (answer.Some? ==>
            var query := EquivalenceQuery(task.propType, answer.value, data.inPackets[k.0], data.outPackets[k.0], task.rrOrWp);
            equiv1(query.0, query.1) == equiv2(query.0, query.1))
    ensures DecideResults(data, rewrite1, equiv1).value[k] == DecideResults(data, rewrite2, equiv2).value[k]
  {
  }

  /** A rewrite engine that always fails makes every entry `None`. */
  lemma DecideRewriteAlwaysFails(data: Request, rewrite: RewriteEngine, equiv: EquivalenceEngine)
    requires forall file, moduleName, prop :: rewrite(file, moduleName, prop) == None
    ensures DecideRunnable(data, rewrite)
    ensures DecideResults(data, rewrite, equiv).Ok? ==>
      forall k | k in DecideResults(data, rewrite, equiv).value :: DecideResults(data, rewrite, equiv).value[k] == None
  {
  }

  /** One observed point with one property gives one key. */
  lemma TaskKeysSingle(data: Request, q: string)
    requires data.inPackets.Keys == {q} && q in data.properties && |data.properties[q]| == 1
    ensures TaskKeys(data) == {(q, 0)}
  {
    KeysUpToStep(q, 0);
    assert KeysUpTo(q, 0) == {};
    KeysOfVisit({}, q, data.properties);
    assert KeysOf({}, data.properties) == {};
    assert {} + {q} == {q};
  }

  /** One reachability property of observation point `p1`, packets `a` and
      `b`, a rewrite engine answering `N` and an equivalence engine that
      holds `((a) . (N) . (b))` equal to `zero`: the map is `{(p1, 0): True}`. */
  lemma DecideReachabilityExample(fileName: string, moduleName: string, program: string, template: string, depth: int)
    ensures
      var data := Request(fileName, moduleName, program, map["p1" := "a"], map["p1" := "b"],
                          map["p1" := [PropertySpec("r", template, "", depth)]], []);
      var rewrite: RewriteEngine := (file, moduleName, prop) => Some("N");
      var equiv: EquivalenceEngine :=
        (term1, term2) => if term1 == "((a) . (N) . (b))" && term2 == "zero" then Some(true) else None;
      && DecideRunnable(data, rewrite)
      && DecideResults(data, rewrite, equiv) == Ok(map[("p1", 0) := Some(true)])
  {
    var data := Request(fileName, moduleName, program, map["p1" := "a"], map["p1" := "b"],
                        map["p1" := [PropertySpec("r", template, "", depth)]], []);
    assert data.inPackets.Keys == {"p1"};
    TaskKeysSingle(data, "p1");
    var rewrite: RewriteEngine := (file, moduleName, prop) => Some("N");
    var equiv: EquivalenceEngine :=
      (term1, term2) => if term1 == "((a) . (N) . (b))" && term2 == "zero" then Some(true) else None;
    assert EncapsulationSet(data.comm) == Ok([]);
    var task := PendingTask(data, [], ("p1", 0));
    assert rewrite(fileName, moduleName, task.propMaude) == Some("N");
    ReachabilityExampleQuery();
    assert KeyResult(data, [], ("p1", 0), rewrite, equiv) == Some(true);
    assert DecideResults(data, rewrite, equiv).value == map[("p1", 0) := Some(true)];
  }

  /** The query of the example above. */
  lemma ReachabilityExampleQuery()
    ensures EquivalenceQuery("r", "N", "a", "b", "") == ("((a) . (N) . (b))", "zero")
  {
    assert HbhReachabilityTerm("a", "N", "b") == "((a) . (N) . (b))";
  }
}
