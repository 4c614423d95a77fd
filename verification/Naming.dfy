/**
  Node pool names and reservation sub-block paths, and when two of them clash.
 */
module Naming {
  import opened Text

  /** The name of the node pool for one sub-block index. */
  function SetNodePoolName(nodepoolPrefix: string, blockName: string, index: int): string {
    if nodepoolPrefix != "" then nodepoolPrefix + "-" + FormatIndex(index)
    else blockName + "-subblock-" + FormatIndex(index)
  }

  /** A name is the stem, a dash and the one index numeral of its index; the block counts only without a prefix. */
  lemma NamesExactly(nodepoolPrefix: string, blockName: string, index: nat, name: string)
    ensures name == SetNodePoolName(nodepoolPrefix, blockName, index) <==>
              exists digits :: IsIndexNumeral(digits, index)
                && name == (if nodepoolPrefix != "" then nodepoolPrefix else blockName + "-subblock") + "-" + digits
  {
    var stem := if nodepoolPrefix != "" then nodepoolPrefix else blockName + "-subblock";
    assert SetNodePoolName(nodepoolPrefix, blockName, index) == stem + "-" + FormatIndex(index);
    FormatIndexExactly(index, FormatIndex(index));
    forall digits | IsIndexNumeral(digits, index) ensures digits == FormatIndex(index) {
      FormatIndexExactly(index, digits);
    }
  }

  lemma FourDigits(a: char, b: char, c: char, d: char)
    requires IsDigit(a) && IsDigit(b) && IsDigit(c) && IsDigit(d)
    ensures AllDigits([a, b, c, d])
    ensures NumeralValue([a, b, c, d]) == 1000 * DigitValue(a) + 100 * DigitValue(b) + 10 * DigitValue(c) + DigitValue(d)
  {
    NumeralStep("", a);
    NumeralStep([a], b);
    NumeralStep([a, b], c);
    NumeralStep([a, b, c], d);
    assert "" + [a] == [a] && [a] + [b] == [a, b] && [a, b] + [c] == [a, b, c] && [a, b, c] + [d] == [a, b, c, d];
  }

  /** Names as the repository's tests have them. */
  lemma SomeNames()
    ensures SetNodePoolName("test-prefix", "test-block", 1) == "test-prefix-0001"
    ensures SetNodePoolName("", "test-block", 2) == "test-block-subblock-0002"
  {
    hide NumeralValue, FormatIndex;
    FourDigits('0', '0', '0', '1');
    FourDigits('0', '0', '0', '2');
    FormatIndexExactly(1, "0001");
    FormatIndexExactly(2, "0002");
    assert "test-prefix" + "-" + "0001" == "test-prefix-0001";
    assert "test-block" + "-subblock-" + "0002" == "test-block-subblock-0002";
  }

  /** Two name templates that produce the same names. */
  predicate SameNames(prefix1: string, block1: string, prefix2: string, block2: string) {
    if prefix1 != "" then
      if prefix2 != "" then prefix1 == prefix2 else prefix1 == block2 + "-subblock"
    else
      if prefix2 != "" then prefix2 == block1 + "-subblock" else block1 == block2
  }

  /**
    Names clash exactly when their indices agree and their templates do: equal
    prefixes, equal blocks, or a prefix that spells another entry's
    "<block>-subblock".
   */
  lemma NamesClashExactly(prefix1: string, block1: string, i: nat, prefix2: string, block2: string, j: nat)
    ensures SetNodePoolName(prefix1, block1, i) == SetNodePoolName(prefix2, block2, j)
       <==> i == j && SameNames(prefix1, block1, prefix2, block2)
  {
    var stem1 := if prefix1 != "" then prefix1 else block1 + "-subblock";
    var stem2 := if prefix2 != "" then prefix2 else block2 + "-subblock";
    assert block1 + "-subblock-" + FormatIndex(i) == (block1 + "-subblock") + "-" + FormatIndex(i);
    assert block2 + "-subblock-" + FormatIndex(j) == (block2 + "-subblock") + "-" + FormatIndex(j);
    DigitsHoldNothingElse(FormatIndex(i), '-');
    DigitsHoldNothingElse(FormatIndex(j), '-');
    if stem1 + "-" + FormatIndex(i) == stem2 + "-" + FormatIndex(j) {
      CutAtLast(stem1, FormatIndex(i), stem2, FormatIndex(j), '-');
      FormatIndexInjective(i, j);
    }
    if prefix1 == "" && prefix2 == "" && stem1 == stem2 {
      SuffixCancels(block1, block2, "-subblock");
    }
  }

  lemma SuffixCancels(a: string, b: string, suffix: string)
    requires a + suffix == b + suffix
    ensures a == b
  {
    assert |a| == |b|;
    assert a == (a + suffix)[..|a|] == (b + suffix)[..|a|];
  }

  /** The reservation path of one sub-block. */
  function SubblockPath(project: string, reservation: string, block: string, index: int): string {
    var subblockName := block + "-subblock-" + FormatIndex(index);
    "projects/" + project + "/reservations/" + reservation + "/reservationBlocks/" + block + "/reservationSubBlocks/" + subblockName
  }

  lemma LeafHasNoSlash(block: string, i: nat)
    requires '/' !in block
    ensures '/' !in block + "-subblock-" + FormatIndex(i)
  {
    DigitsHoldNothingElse(FormatIndex(i), '/');
  }

  lemma PathAsHeadAndLeaf(project: string, reservation: string, block: string, leaf: string)
    ensures "projects/" + project + "/reservations/" + reservation + "/reservationBlocks/" + block + "/reservationSubBlocks/" + leaf
         == ("projects/" + project + "/reservations/") + (reservation + ("/reservationBlocks/" + block + "/reservationSubBlocks")) + "/"
            + leaf
  {
  }

  lemma PathIsJoined(project: string, reservation: string, block: string, leaf: string)
    ensures Join(["projects", project, "reservations", reservation, "reservationBlocks", block, "reservationSubBlocks", leaf], '/')
         == "projects/" + project + "/reservations/" + reservation + "/reservationBlocks/" + block + "/reservationSubBlocks/" + leaf
  {
    hide Join;
    JoinOne("projects", '/');
    var p := JoinTwoMore(["projects"], project, "reservations", '/');
    var r := JoinTwoMore(p, reservation, "reservationBlocks", '/');
    var b := JoinTwoMore(r, block, "reservationSubBlocks", '/');
    JoinMore(b, leaf, '/');
    assert b + [leaf] == ["projects", project, "reservations", reservation, "reservationBlocks", block, "reservationSubBlocks", leaf];
    assert "projects" + ['/'] == "projects/";
    assert ['/'] + "reservations" + ['/'] == "/reservations/";
    assert ['/'] + "reservationBlocks" + ['/'] == "/reservationBlocks/";
    assert ['/'] + "reservationSubBlocks" + ['/'] == "/reservationSubBlocks/";
  }

  lemma JoinOne(a: string, sep: char)
    ensures Join([a], sep) == a
  {
  }

  /** Two more pieces, up to the next separator. */
  lemma JoinTwoMore(parts: seq<string>, a: string, b: string, sep: char) returns (more: seq<string>)
    requires parts != []
    ensures more == parts + [a, b] && Join(more, sep) + [sep] == Join(parts, sep) + [sep] + a + ([sep] + b + [sep])
  {
    JoinMore(parts, a, sep);
    JoinMore(parts + [a], b, sep);
    more := parts + [a] + [b];
  }

  /** Cut at its slashes, a path of slash-free parts is the eight segments that the service expects. */
  lemma PathSegments(project: string, reservation: string, block: string, i: nat)
    requires '/' !in project && '/' !in reservation && '/' !in block
    ensures exists digits :: IsIndexNumeral(digits, i)
              && Split(SubblockPath(project, reservation, block, i), '/')
              == ["projects", project, "reservations", reservation, "reservationBlocks", block,
                  "reservationSubBlocks", block + "-subblock-" + digits]
  {
    var leaf := block + "-subblock-" + FormatIndex(i);
    LeafHasNoSlash(block, i);
    var parts := ["projects", project, "reservations", reservation, "reservationBlocks", block, "reservationSubBlocks", leaf];
    assert '/' !in "projects" && '/' !in "reservations" && '/' !in "reservationBlocks" && '/' !in "reservationSubBlocks";
    SplitUndoesJoin(parts, '/');
    PathIsJoined(project, reservation, block, leaf);
    hide Split, Join, FormatIndex;
  }

  lemma PrefixCancels(head: string, a: string, b: string)
    requires head + a == head + b
    ensures a == b
  {
    assert a == (head + a)[|head|..] == (head + b)[|head|..];
  }

  /** Paths of slash-free blocks determine reservation, block and index, whatever the reservation name. */
  lemma PathsDetermineSubblock(project: string, res1: string, block1: string, i: nat, res2: string, block2: string, j: nat)
    requires '/' !in block1 && '/' !in block2
    ensures SubblockPath(project, res1, block1, i) == SubblockPath(project, res2, block2, j)
       <==> res1 == res2 && block1 == block2 && i == j
  {
    if SubblockPath(project, res1, block1, i) == SubblockPath(project, res2, block2, j) {
      var head := "projects/" + project + "/reservations/";
      var mid1 := "/reservationBlocks/" + block1 + "/reservationSubBlocks";
      var mid2 := "/reservationBlocks/" + block2 + "/reservationSubBlocks";
      PathAsHeadAndLeaf(project, res1, block1, block1 + "-subblock-" + FormatIndex(i));
      PathAsHeadAndLeaf(project, res2, block2, block2 + "-subblock-" + FormatIndex(j));
      LeafHasNoSlash(block1, i);
      LeafHasNoSlash(block2, j);
      CutAtLast(head + (res1 + mid1), block1 + "-subblock-" + FormatIndex(i),
                head + (res2 + mid2), block2 + "-subblock-" + FormatIndex(j), '/');
      NamesClashExactly("", block1, i, "", block2, j);
      PrefixCancels(head, res1 + mid1, res2 + mid2);
      SuffixCancels(res1, res2, mid1);
    }
  }
}
