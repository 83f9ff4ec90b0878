/**
 * The term builders of the DyNetKAT coordinator: the transcript path, the
 * encapsulation set, the hop-by-hop reachability term, the splice that puts a
 * factor inside the network's iteration, and the waypointing term. Every one
 * is a composition of strings in the textual syntax the two engines read.
 */
module Terms {
  import opened Wrappers
  import opened PyStrings

  /** `generate_outfile`: the transcript path `<direct>/output_<number>.txt`. */
  function GenerateOutfile(direct: string, number: string): (path: string)
    ensures |path| == |direct| + |number| + 12
    ensures path[..|direct|] == direct
    ensures path[|direct| + 8..|path| - 4] == number
    ensures path[|direct|..|direct| + 8] == "/output_" && path[|path| - 4..] == ".txt"
  {
    direct + "/output_" + number + ".txt"
  }

  /** Within one working directory, different numbers give different paths. */
  lemma GenerateOutfileInjective(direct: string, a: string, b: string)
    requires GenerateOutfile(direct, a) == GenerateOutfile(direct, b)
    ensures a == b
  {
    var p := GenerateOutfile(direct, a);
    assert a == p[|direct| + 8..|p| - 4];
  }

  // ---------------------------------------------------------------------
  // Encapsulation set

  /** The send event of a channel carrying a flow table: `(ch ! (ft))`. */
  function Send(channel: string, flowTable: string): string
  {
    "(" + channel + " ! (" + flowTable + "))"
  }

  /** The receive event of a channel carrying a flow table: `(ch ? (ft))`. */
  function Receive(channel: string, flowTable: string): string
  {
    "(" + channel + " ? (" + flowTable + "))"
  }

  /** `channel, flow_table = entry.split(',')`: defined exactly when the entry
      splits into two pieces; otherwise the unpacking raises ValueError. */
  function ParseCommEntry(entry: string): (pair: Option<(string, string)>)
  {
    var parts := Split(entry, ',');
    if |parts| == 2 then Some((parts[0], parts[1])) else None
  }

  /** An entry parses to `(a, b)` exactly when it is `a,b` with no other comma. */
  lemma ParseCommEntrySpec(entry: string, a: string, b: string)
    ensures ParseCommEntry(entry) == Some((a, b)) <==> entry == a + "," + b && ',' !in a && ',' !in b
  {
    if ParseCommEntry(entry) == Some((a, b)) {
      var parts := Split(entry, ',');
      JoinSplit(entry, ',');
      assert parts == [a, b];
      assert Join(parts, ",") == a + "," + Join([b], ",");
    }
    if entry == a + "," + b && ',' !in a && ',' !in b {
      assert Join([a, b], ",") == entry by {
        assert [a, b][1..] == [b];
      }
      SplitJoin([a, b], ',');
    }
  }

  /** The encapsulation set of a list of `channel,flow_table` entries, or the
      first entry that does not unpack into two pieces. */
  function EncapsulationSet(comm: seq<string>): Result<seq<string>, string>
    decreases |comm|
  {
    if comm == [] then Ok([])
    else
      match EncapsulationSet(comm[..|comm| - 1])
      case Err(e) => Err(e)
      case Ok(prefix) =>
        match ParseCommEntry(comm[|comm| - 1])
        case None => Err(comm[|comm| - 1])
        case Some((channel, flowTable)) => Ok(prefix + [Send(channel, flowTable), Receive(channel, flowTable)])
  }

  /** `compute_encapsulation_set`: appends the send and the receive term of
      every entry in turn, stopping at the first malformed entry. */
  method ComputeEncapsulationSet(comm: seq<string>) returns (r: Result<seq<string>, string>)
    ensures r == EncapsulationSet(comm)
  {
    var deltaH: seq<string> := [];
    for i := 0 to |comm|
      invariant EncapsulationSet(comm[..i]) == Ok(deltaH)
    {
      assert comm[..i + 1][..i] == comm[..i];
      var pair := ParseCommEntry(comm[i]);
      if pair.None? {
        EncapsulationSetErrorPersists(comm, i + 1);
        return Err(comm[i]);
      }
      var (channel, flowTable) := pair.value;
      deltaH := deltaH + [Send(channel, flowTable), Receive(channel, flowTable)];
    }
    assert comm[..|comm|] == comm;
    return Ok(deltaH);
  }

  /** Once a prefix of the entries fails, the whole list fails with the same entry. */
  lemma {:induction false} EncapsulationSetErrorPersists(comm: seq<string>, n: nat)
    requires n <= |comm| && EncapsulationSet(comm[..n]).Err?
    ensures EncapsulationSet(comm) == EncapsulationSet(comm[..n])
    decreases |comm| - n
  {
    if n < |comm| {
      assert comm[..n + 1][..n] == comm[..n];
      EncapsulationSetErrorPersists(comm, n + 1);
    } else {
      assert comm[..n] == comm;
    }
  }

  /** The set is defined exactly when every entry unpacks; then it holds two
      terms per entry, in input order, the send term before the receive term. */
  lemma {:induction false} EncapsulationSetShape(comm: seq<string>)
    ensures EncapsulationSet(comm).Ok? <==> forall i :: 0 <= i < |comm| ==> ParseCommEntry(comm[i]).Some?
    ensures EncapsulationSet(comm).Ok? ==>
      var deltaH := EncapsulationSet(comm).value;
      && |deltaH| == 2 * |comm|
      && forall i :: 0 <= i < |comm| ==>
        var (channel, flowTable) := ParseCommEntry(comm[i]).value;
        deltaH[2 * i] == Send(channel, flowTable) && deltaH[2 * i + 1] == Receive(channel, flowTable)
    decreases |comm|
  {
    if comm != [] {
      var init := comm[..|comm| - 1];
      EncapsulationSetShape(init);
      assert forall i :: 0 <= i < |init| ==> init[i] == comm[i];
    }
  }

  /** A failure names the first entry that does not unpack. */
  lemma {:induction false} EncapsulationSetError(comm: seq<string>)
    requires EncapsulationSet(comm).Err?
    ensures exists i ::
      && 0 <= i < |comm|
      && comm[i] == EncapsulationSet(comm).error
      && ParseCommEntry(comm[i]).None?
      && (forall j :: 0 <= j < i ==> ParseCommEntry(comm[j]).Some?)
    decreases |comm|
  {
    var init := comm[..|comm| - 1];
    assert forall i :: 0 <= i < |init| ==> init[i] == comm[i];
    if EncapsulationSet(init).Err? {
      EncapsulationSetError(init);
    } else {
      EncapsulationSetShape(init);
      assert ParseCommEntry(comm[|comm| - 1]).None?;
    }
  }

  // ---------------------------------------------------------------------
  // Reachability and waypointing

  /** `hbh_reachability_term`: `((in) . (network) . (out))`. */
  function HbhReachabilityTerm(inPacket: string, network: string, outPacket: string): (t: string)
    ensures |t| == |inPacket| + |network| + |outPacket| + 14
    ensures t[..|inPacket| + 7] == "((" + inPacket + ") . ("
    ensures t[|t| - |outPacket| - 7..] == ") . (" + outPacket + "))"
  {
    "((" + inPacket + ") . (" + network + ") . (" + outPacket + "))"
  }

  /** Given the two packets, the reachability term determines the network. */
  lemma ReachabilityDeterminesNetwork(inPacket: string, n1: string, n2: string, outPacket: string)
    requires HbhReachabilityTerm(inPacket, n1, outPacket) == HbhReachabilityTerm(inPacket, n2, outPacket)
    ensures n1 == n2
  {
    var t := HbhReachabilityTerm(inPacket, n1, outPacket);
    assert n1 == t[|inPacket| + 7..|inPacket| + 7 + |n1|];
    assert n2 == HbhReachabilityTerm(inPacket, n2, outPacket)[|inPacket| + 7..|inPacket| + 7 + |n2|];
  }

  /** `insert_inside_network`: when the network iterates (holds a `*`), put
      `(term) . ` as the first factor after the first `(` of the network. */
  function InsertInsideNetwork(term: string, network: string): (t: string)
    ensures '*' !in network ==> t == network
  {
    if '*' in network then
      var k := Find(network, '(');
      Take(network, k) + " ((" + term + ") . " + Drop(network, k + 1)
    else network
  }

  /** With a `*` and a first `(` at index `k`, everything before `k` is kept and
      the term opens the parenthesis; the result is six characters plus the
      term longer than the network. `k` may lie before the `*`. */
  lemma InsertAtFirstParen(term: string, network: string, k: nat)
    requires '*' in network
    requires k < |network| && network[k] == '(' && '(' !in network[..k]
    ensures InsertInsideNetwork(term, network) == network[..k] + " ((" + term + ") . " + network[k + 1..]
    ensures InsertInsideNetwork(term, network)[..k] == network[..k]
    ensures |InsertInsideNetwork(term, network)| == |network| + |term| + 6
  {
    FindIsFirst(network, '(', k);
  }

  /** With a `*` but no `(`, `find` yields -1: the splice keeps all but the
      last character, then the term, then the whole network once more. */
  lemma InsertWithoutParen(term: string, network: string)
    requires '*' in network && '(' !in network
    ensures InsertInsideNetwork(term, network) == network[..|network| - 1] + " ((" + term + ") . " + network
    ensures |InsertInsideNetwork(term, network)| == 2 * |network| + |term| + 6
  {
  }

  /** The packet with every parenthesis removed (`replace('(', '')` then `replace(')', '')`). */
  function StripParens(packet: string): (s: string)
    ensures '(' !in s && ')' !in s
    ensures '(' !in packet && ')' !in packet ==> s == packet
  {
    var noOpen := ReplaceAll(packet, "(", "");
    ReplaceCharRemoves(packet, '(', "");
    ReplaceCharRemoves(noOpen, ')', "");
    ReplaceKeepsAbsent(noOpen, ")", "", '(');
    if '(' !in packet && ')' !in packet then
      ReplaceAbsent(packet, "(", "");
      ReplaceAbsent(packet, ")", "");
      ReplaceAll(noOpen, ")", "")
    else
      ReplaceAll(noOpen, ")", "")
  }

  /** Stripping acts character by character: it distributes over concatenation. */
  lemma StripParensConcat(x: string, y: string)
    ensures StripParens(x + y) == StripParens(x) + StripParens(y)
  {
    ReplaceCharConcat(x, y, '(', "");
    ReplaceCharConcat(ReplaceAll(x, "(", ""), ReplaceAll(y, "(", ""), ')', "");
  }

  /** A parenthesis is dropped and every other character is kept. */
  lemma StripParensChar(ch: char)
    ensures StripParens([ch]) == if ch == '(' || ch == ')' then [] else [ch]
  {
    if ch == '(' {
      ReplaceAtOccurrence([], "(", "");
      assert [ch] + [] == [ch];
    } else if ch == ')' {
      ReplaceAbsent([ch], "(", "");
      ReplaceAtOccurrence([], ")", "");
      assert [ch] + [] == [ch];
    }
  }

  /** The negation `~ (p)` of a packet, its parentheses stripped. */
  function Negation(packet: string): string
  {
    "~ (" + StripParens(packet) + ")"
  }

  /** The network with the negated packet placed inside its iteration. */
  function Exclusion(packet: string, network: string): string
  {
    InsertInsideNetwork(Negation(packet), network)
  }

  /** `waypointing_term`: `(in) . (X_out) . (wp) . (X_in) . (out)`, where `X_p`
      is the network that never lets packet `p` pass inside its iteration. */
  function WaypointingTerm(inPacket: string, network: string, outPacket: string, waypoint: string): (t: string)
    ensures '*' !in network ==>
      t == "(" + inPacket + ") . (" + network + ") . (" + waypoint + ") . (" + network + ") . (" + outPacket + ")"
  {
    var outTerm := Exclusion(outPacket, network);
    var inTerm := Exclusion(inPacket, network);
    "(" + inPacket + ") . (" + outTerm + ") . (" + waypoint + ") . (" + inTerm + ") . (" + outPacket + ")"
  }

  /** With a `*` and a first `(` at `k`, the exclusion factor splices the
      parenthesis-free negation `~ (p)` at `k`; a packet without parentheses
      is negated as it stands. */
  lemma ExclusionAtFirstParen(packet: string, network: string, k: nat)
    requires '*' in network
    requires k < |network| && network[k] == '(' && '(' !in network[..k]
    ensures Exclusion(packet, network)
      == network[..k] + " ((~ (" + StripParens(packet) + ")) . " + network[k + 1..]
    ensures '(' !in packet && ')' !in packet ==>
      Exclusion(packet, network) == network[..k] + " ((~ (" + packet + ")) . " + network[k + 1..]
    ensures |Exclusion(packet, network)| == |network| + |StripParens(packet)| + 10
  {
    InsertAtFirstParen(Negation(packet), network, k);
    assert " ((" + Negation(packet) + ") . " == " ((~ (" + StripParens(packet) + ")) . ";
  }

  /** With a `*` and a first `(`, the waypointing term is 42 characters longer
      than its inputs, the network counted twice and each negated packet once. */
  lemma WaypointingLength(inPacket: string, network: string, outPacket: string, waypoint: string, k: nat)
    requires '*' in network
    requires k < |network| && network[k] == '(' && '(' !in network[..k]
    ensures |WaypointingTerm(inPacket, network, outPacket, waypoint)|
      == |inPacket| + |outPacket| + |waypoint| + 2 * |network| + |StripParens(inPacket)| + |StripParens(outPacket)| + 42
  {
    ExclusionAtFirstParen(outPacket, network, k);
    ExclusionAtFirstParen(inPacket, network, k);
  }

  /** The five factors of the waypointing term, in order. */
  function WaypointingFactors(inPacket: string, network: string, outPacket: string, waypoint: string): seq<string>
  {
    [inPacket, Exclusion(outPacket, network), waypoint, Exclusion(inPacket, network), outPacket]
  }

  /** Five pieces joined and enclosed, written out. */
  lemma JoinFiveEnclosed(open: string, a: string, b: string, c: string, d: string, e: string, sep: string, close: string)
    ensures open + Join([a, b, c, d, e], sep) + close
      == open + a + sep + b + sep + c + sep + d + sep + e + close
  {
    JoinCons(d, [e], sep);
    JoinCons(c, [d, e], sep);
    JoinCons(b, [c, d, e], sep);
    JoinCons(a, [b, c, d, e], sep);
    assert [a] + [b, c, d, e] == [a, b, c, d, e];
  }

  /** The waypointing term is its five factors, each parenthesised and joined by ` . `. */
  lemma WaypointingJoin(inPacket: string, network: string, outPacket: string, waypoint: string)
    ensures WaypointingTerm(inPacket, network, outPacket, waypoint)
      == "(" + Join(WaypointingFactors(inPacket, network, outPacket, waypoint), ") . (") + ")"
  {
    var f := WaypointingFactors(inPacket, network, outPacket, waypoint);
    JoinFiveEnclosed("(", f[0], f[1], f[2], f[3], f[4], ") . (", ")");
    assert [f[0], f[1], f[2], f[3], f[4]] == f;
  }

  /** Swapping the packets reverses the order of the five factors: the
      outer packets trade places and so do the two exclusion factors, while
      the waypoint stays in the middle. */
  lemma WaypointingSwap(inPacket: string, network: string, outPacket: string, waypoint: string)
    ensures var f := WaypointingFactors(inPacket, network, outPacket, waypoint);
      WaypointingTerm(outPacket, network, inPacket, waypoint)
        == "(" + Join([f[4], f[3], f[2], f[1], f[0]], ") . (") + ")"
  {
    WaypointingJoin(outPacket, network, inPacket, waypoint);
  }
}
