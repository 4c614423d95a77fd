/** The comma-separated list of additional node networks, "vpc1:subnet1, vpc2:subnet2". */
module Networks {
  import opened Common
  import opened Text

  datatype Network = Network(network: string, subnetwork: string)

  datatype NetworkError = MissingColon(pair: string)

  type Parsed = Result<seq<Network>, NetworkError>

  /** What one piece between commas contributes. */
  function ParsePair(piece: string): Parsed {
    var pair := TrimSpace(piece);
    if pair == "" then Success([])
    else
      var i := IndexOf(pair, ':');
      if i == |pair| then Failure(MissingColon(pair))
      else Success([Network(TrimSpace(pair[..i]), TrimSpace(pair[i + 1..]))])
  }

  /** Trimming a piece does not touch what is around a colon, so the sides can be trimmed at once. */
  lemma TrimAroundColon(left: string, right: string)
    requires ':' !in left
    ensures var pair := TrimSpace(left + ":" + right);
            && IndexOf(pair, ':') < |pair|
            && TrimSpace(pair[..IndexOf(pair, ':')]) == TrimSpace(left) && TrimSpace(pair[IndexOf(pair, ':') + 1..]) == TrimSpace(right)
  {
    hide TrimSpace, TrimLeft, TrimRight, IndexOf;
    var w := TrimLeftCuts(left);
    var z := TrimRightCuts(right);
    var l, r := TrimLeft(left), TrimRight(right);
    var pair := l + ":" + r;
    assert left + ":" + right == w + pair + z && AllBlank(w) && AllBlank(z) && Trimmed(pair);
    TrimSpaceExactly(left + ":" + right, pair);
    assert forall c :: c in l ==> c in left;
    IndexOfPrefix(l, r, ':');
    assert pair[..|l|] == l && pair[|l| + 1..] == r;
    assert w + l + [] == left && [] + r + z == right;
    TrimIgnoresBlanks(w, l, []);
    TrimIgnoresBlanks([], r, z);
  }

  /** A piece that is neither blank nor holds a colon. */
  predicate BadPiece(piece: string) {
    !AllBlank(piece) && ':' !in piece
  }

  /**
    What a piece contributes, whatever blanks it holds around the pair or around
    either side: nothing if it is blank, an error without a colon, else the parts
    before and after its first colon.
   */
  lemma PieceExactly(piece: string)
    ensures AllBlank(piece) ==> ParsePair(piece) == Success([])
    ensures BadPiece(piece) ==> ParsePair(piece) == Failure(MissingColon(TrimSpace(piece)))
    ensures forall net, sub :: ':' !in net && piece == net + ":" + sub ==>
              ParsePair(piece) == Success([Network(TrimSpace(net), TrimSpace(sub))])
  {
    hide TrimLeft, TrimRight;
    TrimSpaceExactly(piece, TrimSpace(piece));
    if AllBlank(piece) {
      assert AllBlank("") && piece == piece + "" + "";
      TrimSpaceExactly(piece, "");
    }
    forall net, sub | ':' !in net && piece == net + ":" + sub
      ensures ParsePair(piece) == Success([Network(TrimSpace(net), TrimSpace(sub))])
    {
      TrimAroundColon(net, sub);
    }
  }

  /** The first failure wins; otherwise the lists are concatenated. */
  function Combine(a: Parsed, b: Parsed): Parsed {
    match (a, b)
    case (Failure(_), _) => a
    case (_, Failure(_)) => b
    case (Success(x), Success(y)) => Success(x + y)
  }

  function ParsePieces(pieces: seq<string>): Parsed {
    if pieces == [] then Success([])
    else Combine(ParsePieces(pieces[..|pieces| - 1]), ParsePair(pieces[|pieces| - 1]))
  }

  function ParseNetworks(csv: string): Parsed {
    ParsePieces(Split(csv, ','))
  }

  lemma {:induction false} FailureIsFinal(pieces: seq<string>, k: nat)
    requires k <= |pieces| && ParsePieces(pieces[..k]).Failure?
    ensures ParsePieces(pieces) == ParsePieces(pieces[..k])
    decreases |pieces| - k
  {
    if k == |pieces| {
      assert pieces[..k] == pieces;
    } else {
      assert pieces[..k + 1][..k] == pieces[..k];
      FailureIsFinal(pieces, k + 1);
    }
  }

  /** The source's loop, which appends one network at a time and stops at the first bad pair. */
  method ParseAdditionalNodeNetworks(additionalNodeNetworksCSV: string) returns (r: Parsed)
    ensures r == ParseNetworks(additionalNodeNetworksCSV)
  {
    var additionalNodeNetworks: seq<Network> := [];
    var pieces := Split(additionalNodeNetworksCSV, ',');
    for k := 0 to |pieces|
      invariant ParsePieces(pieces[..k]) == Success(additionalNodeNetworks)
    {
      assert pieces[..k + 1][..k] == pieces[..k];
      var pair := TrimSpace(pieces[k]);
      if pair == "" {
        assert additionalNodeNetworks + [] == additionalNodeNetworks;
        continue;
      }
      var i := IndexOf(pair, ':');
      if i == |pair| {
        FailureIsFinal(pieces, k + 1);
        return Failure(MissingColon(pair));
      }
      additionalNodeNetworks := additionalNodeNetworks + [Network(TrimSpace(pair[..i]), TrimSpace(pair[i + 1..]))];
    }
    assert pieces[..|pieces|] == pieces;
    return Success(additionalNodeNetworks);
  }

  lemma CombineUnits(a: Parsed)
    ensures Combine(a, Success([])) == a == Combine(Success([]), a)
  {
    if a.Success? {
      assert a.value + [] == a.value == [] + a.value;
    }
  }

  lemma SinglePiece(piece: string)
    ensures ParsePieces([piece]) == ParsePair(piece)
  {
    assert [piece][..0] == [];
    CombineUnits(ParsePair(piece));
  }

  lemma {:induction false} PiecesConcat(a: seq<string>, b: seq<string>)
    ensures ParsePieces(a + b) == Combine(ParsePieces(a), ParsePieces(b))
  {
    if b == [] {
      assert a + b == a;
      CombineUnits(ParsePieces(a));
    } else {
      var last := |b| - 1;
      assert (a + b)[..|a + b| - 1] == a + b[..last];
      PiecesConcat(a, b[..last]);
      CombineAssociative(ParsePieces(a), ParsePieces(b[..last]), ParsePair(b[last]));
    }
  }

  lemma CombineAssociative(a: Parsed, b: Parsed, c: Parsed)
    ensures Combine(Combine(a, b), c) == Combine(a, Combine(b, c))
  {
    if a.Success? && b.Success? && c.Success? {
      assert (a.value + b.value) + c.value == a.value + (b.value + c.value);
    }
  }

  /** Joining two lists with a comma concatenates what they parse to, and fails iff either does. */
  lemma ParsingIsAHomomorphism(a: string, b: string)
    ensures ParseNetworks(a + "," + b) == Combine(ParseNetworks(a), ParseNetworks(b))
    ensures ParseNetworks(a + "," + b).Failure? <==> ParseNetworks(a).Failure? || ParseNetworks(b).Failure?
  {
    SplitConcat(a, b, ',');
    PiecesConcat(Split(a, ','), Split(b, ','));
  }

  lemma {:induction false} PiecesFailAtFirstBad(pieces: seq<string>)
    ensures ParsePieces(pieces).Failure? <==> exists k :: 0 <= k < |pieces| && BadPiece(pieces[k])
    ensures forall k :: 0 <= k < |pieces| && BadPiece(pieces[k]) && (forall j :: 0 <= j < k ==> !BadPiece(pieces[j])) ==>
              ParsePieces(pieces) == Failure(MissingColon(TrimSpace(pieces[k])))
    decreases |pieces|
  {
    hide BadPiece, ParsePair;
    if pieces != [] {
      var last := |pieces| - 1;
      PiecesFailAtFirstBad(pieces[..last]);
      GoodPieceParses(pieces[last]);
      assert forall k :: 0 <= k < last ==> pieces[..last][k] == pieces[k];
    }
  }

  lemma GoodPieceParses(piece: string)
    ensures BadPiece(piece) ==> ParsePair(piece) == Failure(MissingColon(TrimSpace(piece)))
    ensures !BadPiece(piece) ==> ParsePair(piece).Success?
  {
    hide ParsePair, TrimSpace;
    PieceExactly(piece);
    if ':' in piece {
      var i := IndexOf(piece, ':');
      var net, sub := piece[..i], piece[i + 1..];
      assert ':' !in net && piece == net + ":" + sub;
      assert ParsePair(piece) == Success([Network(TrimSpace(net), TrimSpace(sub))]);
    } else {
      assert BadPiece(piece) || AllBlank(piece);
    }
  }

  /** A list fails exactly when some piece between commas is neither blank nor holds a colon, with the first such piece. */
  lemma FailsAtFirstBadPiece(csv: string)
    ensures var pieces := Split(csv, ',');
            && (ParseNetworks(csv).Failure? <==> exists k :: 0 <= k < |pieces| && BadPiece(pieces[k]))
            && (forall k :: 0 <= k < |pieces| && BadPiece(pieces[k]) && (forall j :: 0 <= j < k ==> !BadPiece(pieces[j])) ==>
                  ParseNetworks(csv) == Failure(MissingColon(TrimSpace(pieces[k]))))
  {
    PiecesFailAtFirstBad(Split(csv, ','));
  }

  /** Blanks around the pairs of a list, or around their sides, do not change what it parses to. */
  lemma BlanksDoNotCount(net: string, sub: string, w1: string, w2: string, w3: string, w4: string)
    requires AllBlank(w1) && AllBlank(w2) && AllBlank(w3) && AllBlank(w4)
    requires ',' !in net && ',' !in sub && ':' !in net
    ensures ParseNetworks((w1 + net + w2) + ":" + (w3 + sub + w4)) == ParseNetworks(net + ":" + sub)
         == Success([Network(TrimSpace(net), TrimSpace(sub))])
  {
    hide TrimSpace, ParsePair;
    var padded := (w1 + net + w2) + ":" + (w3 + sub + w4);
    BlanksHoldNothingElse(w1);
    BlanksHoldNothingElse(w2);
    BlanksHoldNothingElse(w3);
    BlanksHoldNothingElse(w4);
    SplitWhole(padded, ',');
    SplitWhole(net + ":" + sub, ',');
    SinglePiece(padded);
    SinglePiece(net + ":" + sub);
    PieceExactly(padded);
    PieceExactly(net + ":" + sub);
    TrimIgnoresBlanks(w1, net, w2);
    TrimIgnoresBlanks(w3, sub, w4);
  }

  lemma BlanksHoldNothingElse(w: string)
    requires AllBlank(w)
    ensures ',' !in w && ':' !in w
  {
  }

  lemma LeadingBlankDoesNotCount(net: string, sub: string, w: string)
    requires AllBlank(w) && Trimmed(net) && Trimmed(sub) && ',' !in net && ',' !in sub && ':' !in net
    ensures ParseNetworks(w + net + ":" + sub) == Success([Network(net, sub)])
  {
    hide ParseNetworks, TrimSpace;
    BlanksDoNotCount(net, sub, w, "", "", "");
    assert (w + net + "") + ":" + ("" + sub + "") == w + net + ":" + sub;
    TrimIdentity(net);
    TrimIdentity(sub);
  }

  /** The list that the source gives as its example. */
  lemma DocumentedList()
    ensures ParseNetworks("vpc1:subnet1, vpc2:subnet2") == Success([Network("vpc1", "subnet1"), Network("vpc2", "subnet2")])
  {
    hide ParseNetworks, TrimSpace, TrimLeft, TrimRight, Split, IndexOf;
    assert "vpc1:subnet1, vpc2:subnet2" == "vpc1:subnet1" + "," + " vpc2:subnet2";
    ParsingIsAHomomorphism("vpc1:subnet1", " vpc2:subnet2");
    LeadingBlankDoesNotCount("vpc1", "subnet1", "");
    LeadingBlankDoesNotCount("vpc2", "subnet2", " ");
    assert "" + "vpc1" + ":" + "subnet1" == "vpc1:subnet1";
    assert " " + "vpc2" + ":" + "subnet2" == " vpc2:subnet2";
    var first, second := Network("vpc1", "subnet1"), Network("vpc2", "subnet2");
    assert [first] + [second] == [first, second];
  }

  function PrintNetwork(n: Network): string {
    n.network + ":" + n.subnetwork
  }

  function PrintNetworks(ns: seq<Network>): string {
    if ns == [] then "" else if |ns| == 1 then PrintNetwork(ns[0])
    else PrintNetworks(ns[..|ns| - 1]) + "," + PrintNetwork(ns[|ns| - 1])
  }

  /** A pair that printing represents faithfully. */
  predicate Printable(n: Network) {
    && Trimmed(n.network) && Trimmed(n.subnetwork)
    && ',' !in n.network && ',' !in n.subnetwork && ':' !in n.network
  }

  lemma PrintedPairParses(n: Network)
    requires Printable(n)
    ensures ParseNetworks(PrintNetwork(n)) == Success([n])
  {
    var s := PrintNetwork(n);
    TrimIdentity(s);
    IndexOfPrefix(n.network, n.subnetwork, ':');
    assert s[..|n.network|] == n.network && s[|n.network| + 1..] == n.subnetwork;
    TrimIdentity(n.network);
    TrimIdentity(n.subnetwork);
    assert Split(s, ',') == [s];
    SinglePiece(s);
  }

  /** Parsing undoes printing, also for pairs with an empty side and for the empty list. */
  lemma {:induction false} ParseUndoesPrint(ns: seq<Network>)
    requires forall n :: n in ns ==> Printable(n)
    ensures ParseNetworks(PrintNetworks(ns)) == Success(ns)
  {
    if ns == [] {
      assert Split("", ',') == [""];
      SinglePiece("");
    } else if |ns| == 1 {
      PrintedPairParses(ns[0]);
      assert ns == [ns[0]];
    } else {
      var last := |ns| - 1;
      assert ns == ns[..last] + [ns[last]];
      ParseUndoesPrint(ns[..last]);
      PrintedPairParses(ns[last]);
      ParsingIsAHomomorphism(PrintNetworks(ns[..last]), PrintNetwork(ns[last]));
    }
  }
}
