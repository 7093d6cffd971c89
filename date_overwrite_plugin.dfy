/**
 * The detection pass: the service that finds RDFa blocks typed `xsd:date` or
 * `xsd:dateTime` and publishes one date-overwrite hint for each of them.
 */
module DateOverwritePlugin {
  import opened Wrappers
  import opened Rdfa

  /** The card that renders this plugin's hints, and the scope of its hints in the registry. */
  const ComponentId: string := "editor-plugins/date-overwrite-card"

  /** The `info` a hint hands to its card (the registry and editor references are left out). */
  datatype HintInfo = HintInfo(plainValue: string, value: string, dataType: Option<string>,
                               location: Region, hrId: HrId)

  datatype Hint = Hint(info: HintInfo, location: Region, card: string, noHighlight: bool)

  /** A call the service makes on the hints registry. */
  datatype RegistryCall =
    | RemoveHints(rdfaBlocks: seq<Block>, hrId: HrId, scope: string)
    | AddHints(hrId: HrId, scope: string, hints: seq<Hint>)

  /** `block.context.slice(-1)[0]`; on an empty context it is `undefined` and the caller fails. */
  function LastTriple(block: Block): Triple
    requires |block.context| > 0
  {
    block.context[|block.context| - 1]
  }

  /** `isRelevant`: the last triple carries one of the two full XML Schema date datatypes. */
  predicate IsRelevant(block: Block)
    requires |block.context| > 0
  {
    LastTriple(block).dataType == Some(XsdDate) || LastTriple(block).dataType == Some(XsdDateTime)
  }

  /** `block.text || ''`. */
  function PlainText(text: Option<string>): string {
    if text.Some? then text.value else ""
  }

  /** `generateHint`. */
  function GenerateHint(block: Block, hrId: HrId): Hint
    requires |block.context| > 0
  {
    var triple := LastTriple(block);
    Hint(HintInfo(PlainText(block.text), triple.objectValue, triple.dataType, block.region, hrId),
         block.region, ComponentId, true)
  }

  predicate AllHaveContext(blocks: seq<Block>) {
    forall i :: 0 <= i < |blocks| ==> |blocks[i].context| > 0
  }

  /** What one block contributes to the hints of a pass. */
  function HintsOfBlock(block: Block, hrId: HrId): seq<Hint>
    requires |block.context| > 0
  {
    if IsRelevant(block) then [GenerateHint(block, hrId)] else []
  }

  /** The hints a pass over `blocks` publishes, in block order. */
  function Hints(blocks: seq<Block>, hrId: HrId): (hints: seq<Hint>)
    requires AllHaveContext(blocks)
    ensures |hints| <= |blocks|
  {
    if blocks == [] then [] else HintsOfBlock(blocks[0], hrId) + Hints(blocks[1..], hrId)
  }

  /**
   * `execute`: retract this plugin's earlier hints for `hrId`, build one hint per
   * relevant block and publish them if there are any. The result is the sequence
   * of registry calls, in the order they are made.
   */
  method Execute(hrId: HrId, rdfaBlocks: seq<Block>) returns (calls: seq<RegistryCall>)
    requires AllHaveContext(rdfaBlocks)
    ensures |calls| >= 1 && calls[0] == RemoveHints(rdfaBlocks, hrId, ComponentId)
    ensures calls[1..] == if Hints(rdfaBlocks, hrId) == [] then []
                          else [AddHints(hrId, ComponentId, Hints(rdfaBlocks, hrId))]
    ensures |calls| == 2 <==> exists i :: 0 <= i < |rdfaBlocks| && IsRelevant(rdfaBlocks[i])
  {
    var hints: seq<Hint> := [];
    calls := [RemoveHints(rdfaBlocks, hrId, ComponentId)];
    for i := 0 to |rdfaBlocks|
      invariant hints == Hints(rdfaBlocks[..i], hrId)
    {
      if IsRelevant(rdfaBlocks[i]) {
        hints := hints + [GenerateHint(rdfaBlocks[i], hrId)];
      }
      assert rdfaBlocks[..i + 1] == rdfaBlocks[..i] + [rdfaBlocks[i]];
      HintsAppend(rdfaBlocks[..i], [rdfaBlocks[i]], hrId);
    }
    assert rdfaBlocks[..|rdfaBlocks|] == rdfaBlocks;
    if |hints| > 0 {
      calls := calls + [AddHints(hrId, ComponentId, hints)];
    }
    HintsNonEmptyIff(rdfaBlocks, hrId);
  }

  /** The hints of a concatenation are the concatenation of the hints: block order is kept. */
  lemma {:induction false} HintsAppend(a: seq<Block>, b: seq<Block>, hrId: HrId)
    requires AllHaveContext(a) && AllHaveContext(b)
    ensures AllHaveContext(a + b)
    ensures Hints(a + b, hrId) == Hints(a, hrId) + Hints(b, hrId)
    decreases |a|
  {
    AppendHasContext(a, b);
    if a == [] {
      assert a + b == b;
    } else {
      assert (a + b)[0] == a[0];
      assert (a + b)[1..] == a[1..] + b;
      HintsAppend(a[1..], b, hrId);
    }
  }

  lemma AppendHasContext(a: seq<Block>, b: seq<Block>)
    requires AllHaveContext(a) && AllHaveContext(b)
    ensures AllHaveContext(a + b)
  {
    forall i | 0 <= i < |a + b| ensures |(a + b)[i].context| > 0 {
      if i >= |a| {
        assert (a + b)[i] == b[i - |a|];
      }
    }
  }

  /** A relevant block yields exactly its own hint, an irrelevant one nothing. */
  lemma HintsOfOne(block: Block, hrId: HrId)
    requires |block.context| > 0
    ensures IsRelevant(block) ==> Hints([block], hrId) == [GenerateHint(block, hrId)]
    ensures !IsRelevant(block) ==> Hints([block], hrId) == []
  {
    assert [block][1..] == [];
  }

  /** A pass publishes something iff some block is relevant. */
  lemma {:induction false} HintsNonEmptyIff(blocks: seq<Block>, hrId: HrId)
    requires AllHaveContext(blocks)
    ensures Hints(blocks, hrId) != [] <==> exists i :: 0 <= i < |blocks| && IsRelevant(blocks[i])
    decreases |blocks|
  {
    if blocks != [] {
      HintsNonEmptyIff(blocks[1..], hrId);
      if exists i :: 1 <= i < |blocks| && IsRelevant(blocks[i]) {
        var i :| 1 <= i < |blocks| && IsRelevant(blocks[i]);
        assert IsRelevant(blocks[1..][i - 1]);
      }
    }
  }

  /**
   * Every relevant block's hint is published and every published hint is the hint
   * of a relevant block.
   */
  lemma {:induction false} HintsAreRelevantBlocks(blocks: seq<Block>, hrId: HrId)
    requires AllHaveContext(blocks)
    ensures forall i :: 0 <= i < |blocks| && IsRelevant(blocks[i]) ==>
              GenerateHint(blocks[i], hrId) in Hints(blocks, hrId)
    ensures forall h :: h in Hints(blocks, hrId) ==>
              exists i :: 0 <= i < |blocks| && IsRelevant(blocks[i]) && h == GenerateHint(blocks[i], hrId)
    decreases |blocks|
  {
    if blocks != [] {
      HintsAreRelevantBlocks(blocks[1..], hrId);
      forall i | 0 <= i < |blocks| && IsRelevant(blocks[i])
        ensures GenerateHint(blocks[i], hrId) in Hints(blocks, hrId)
      {
        if i > 0 {
          assert blocks[1..][i - 1] == blocks[i];
        }
      }
      forall h | h in Hints(blocks, hrId)
        ensures exists i :: 0 <= i < |blocks| && IsRelevant(blocks[i]) && h == GenerateHint(blocks[i], hrId)
      {
        if h !in HintsOfBlock(blocks[0], hrId) {
          var j :| 0 <= j < |blocks[1..]| && IsRelevant(blocks[1..][j]) && h == GenerateHint(blocks[1..][j], hrId);
          assert blocks[j + 1] == blocks[1..][j];
        }
      }
    }
  }

  /** Relevance looks at the last triple of the context only. */
  lemma RelevanceOnlyLastTriple(b1: Block, b2: Block)
    requires |b1.context| > 0 && |b2.context| > 0
    requires LastTriple(b1) == LastTriple(b2)
    ensures IsRelevant(b1) <==> IsRelevant(b2)
  {
  }

  /**
   * Every published hint is a card of this plugin, without highlight, anchored at
   * the region of a relevant block, carrying that block's last triple's object and
   * datatype (one of the two date datatypes), its text or '' and the pass's `hrId`.
   */
  lemma PublishedHintShape(blocks: seq<Block>, hrId: HrId, h: Hint)
    requires AllHaveContext(blocks)
    requires h in Hints(blocks, hrId)
    ensures h.card == ComponentId && h.noHighlight && h.info.hrId == hrId
    ensures h.info.dataType == Some(XsdDate) || h.info.dataType == Some(XsdDateTime)
    ensures exists i :: 0 <= i < |blocks| && IsRelevant(blocks[i]) &&
              h.location == blocks[i].region && h.info.location == blocks[i].region &&
              h.info.value == LastTriple(blocks[i]).objectValue &&
              h.info.dataType == LastTriple(blocks[i]).dataType &&
              h.info.plainValue == PlainText(blocks[i].text)
  {
    HintsAreRelevantBlocks(blocks, hrId);
  }

  /** No alias expansion here: a last triple typed with the short form `xsd:date` is not relevant. */
  lemma ShortFormNotRelevant(block: Block)
    requires |block.context| > 0
    requires LastTriple(block).dataType == Some("xsd:date") || LastTriple(block).dataType == Some("xsd:dateTime")
    ensures !IsRelevant(block)
  {
  }
}
