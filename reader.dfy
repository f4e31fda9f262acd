/** The EDIGEO file reader as a function of its input lines: the four phases
    (BOM, then CSE, then the body up to EOM, then nothing), the dispatch of
    body records to the current block, and the base block's own rule. The
    classes in EdigeoFiles are proved to follow these functions step by step;
    the lemmas below state what the reader promises about whole files. */
module EdigeoReader {
  import opened EdigeoValues
  import opened EdigeoRecords

  /** A charset as the charset resolver returns it. */
  datatype Charset = Charset(name: string)

  /** What the `createBlock` factory of a concrete file kind does with a type
      code: return a block whose kind consumes the given record names itself
      before it defers to the base block (the base block consumes none),
      return null, or throw. */
  datatype Creation = Created(ownRecords: set<string>) | CreatedNull | CreateFailed

  /** The code the reader calls but that is not part of this model:
      `lex` is the record lexer (`None` where it rejects the line),
      `charsetOf` the charset resolver (`None` where it rejects the token), and
      `createBlock` the factory each concrete file kind supplies. */
  datatype Hooks = Hooks(
    lex: string -> Option<Record>,
    charsetOf: string -> Option<Charset>,
    createBlock: string -> Creation)

  /** A block: its type code, the records its kind consumes itself, and the
      identifier set by RID. */
  datatype BlockState = BlockState(blockType: string, ownRecords: set<string>, identifier: Option<string>)

  /** The reader's fields: `bomFound`, `charset`, `eomFound`, `currentBlock`. */
  datatype State = State(bomFound: bool, charset: Option<Charset>, eomFound: bool, current: Option<BlockState>)

  const Initial: State := State(false, None, false, None)

  /** The label the base block logs the identifier under. */
  const IdentifierLabel: string := "Identifier"

  /** Body phase: header and charset read, EOM not yet seen. */
  predicate InBody(s: State) {
    s.bomFound && s.charset.Some? && !s.eomFound
  }

  /** `expected` is what a step should do; `err`, `now` and `before` are what
      an implementation returned, its state after and its state before: on
      success the new state, on failure the same error and no change. */
  predicate Reports<T(==)>(expected: Result<T>, err: Option<Error>, now: T, before: T) {
    (expected.Ok? ==> err.None? && now == expected.value)
    && (expected.Err? ==> err == Some(expected.error) && now == before)
  }

  /** `Block.processRecord`: RID sets the identifier from the first value (absent
      for a declared length that is not positive); any other name the block kind does not
      consume itself is rejected. */
  function BlockStep(b: BlockState, r: Record): (res: Result<BlockState>)
    ensures res.Ok? ==> res.value.blockType == b.blockType && res.value.ownRecords == b.ownRecords
    ensures res.Err? ==> r.name !in b.ownRecords
  {
    if r.name in b.ownRecords then Ok(b)
    else if r.name == "RID" then
      match SafeGetAndLog(r, IdentifierLabel)
      case Err(e) => Err(e)
      case Ok(v) => Ok(b.(identifier := v.value))
    else Err(UnexpectedRecord(r))
  }

  /** `EdigeoFile.processRecord`: RTY replaces the current block by what the
      factory gives for its first value (a new block, or none when it returns
      null), dropping the previous one; anything else goes to the current
      block, which must exist. Only the current block changes, and only RTY
      changes which block (and so which type) is current. */
  function BodyStep(h: Hooks, s: State, r: Record): (res: Result<State>)
    ensures res.Ok? ==> res.value.bomFound == s.bomFound && res.value.charset == s.charset
                        && res.value.eomFound == s.eomFound
    ensures res.Ok? && r.name != "RTY" ==>
      s.current.Some? && res.value.current.Some? && res.value.current.value.blockType == s.current.value.blockType
    ensures res.Ok? && r.name == "RTY" ==>
      && |r.values| > 0
      && (res.value.current.None? || (res.value.current.value.blockType == r.values[0]
                                      && res.value.current.value.identifier.None?))
    ensures res.Err? ==> !res.error.MalformedRecord? && res.error.record == r
  {
    if r.name == "RTY" then
      if |r.values| == 0 then Err(MissingValue(r))
      else match h.createBlock(r.values[0])
        case Created(own) => Ok(s.(current := Some(BlockState(r.values[0], own, None))))
        case CreatedNull => Ok(s.(current := None))
        case CreateFailed => Err(BlockCreationFailed(r))
    else if s.current.None? then Err(OrphanRecord(r))
    else match BlockStep(s.current.value, r)
      case Err(e) => Err(e)
      case Ok(b) => Ok(s.(current := Some(b)))
  }

  /** One record through the four phases: no phase goes backwards, the phases
      stay in order, and an error names the record that caused it. */
  function StepRecord(h: Hooks, s: State, r: Record): (res: Result<State>)
    ensures res.Ok? ==> Advances(s, res.value)
    ensures res.Ok? && Phased(s) ==> Phased(res.value)
    ensures res.Err? ==> !res.error.MalformedRecord? && res.error.record == r
  {
    if !s.bomFound then
      if r.name == "BOM" then Ok(s.(bomFound := true)) else Err(UnexpectedFirstRecord(r))
    else if s.charset.None? then
      if r.name != "CSE" then Err(UnexpectedCharsetRecord(r))
      else if |r.values| == 0 then Err(MissingValue(r))
      else match h.charsetOf(r.values[0])
        case None => Err(UnknownCharset(r))
        case Some(c) => Ok(s.(charset := Some(c)))
    else if s.eomFound then Err(RecordAfterEndOfFile(r))
    else if r.name == "EOM" then Ok(s.(eomFound := true))
    else BodyStep(h, s, r)
  }

  /** One line: an empty line is skipped and changes nothing, any other is
      lexed and processed; a line the lexer rejects is the only malformed one,
      and any other error is about the record lexed from the line. */
  function Step(h: Hooks, s: State, line: string): (res: Result<State>)
    ensures line == "" ==> res == Ok(s)
    ensures res.Ok? ==> Advances(s, res.value)
    ensures res.Ok? && Phased(s) ==> Phased(res.value)
    ensures res == Err(MalformedRecord(line)) <==> line != "" && h.lex(line).None?
    ensures res.Err? && !res.error.MalformedRecord? ==> line != "" && h.lex(line) == Some(res.error.record)
  {
    if line == "" then Ok(s)
    else match h.lex(line)
      case None => Err(MalformedRecord(line))
      case Some(r) => StepRecord(h, s, r)
  }

  /** The read loop: lines in order, stopping at the first error. Running out of
      lines ends the read with whatever state was reached. A whole read never
      moves a phase backwards (in particular the charset, once set, is never
      replaced: a later CSE record is a body record) and keeps the phases in
      order. */
  function Run(h: Hooks, s: State, lines: seq<string>): (res: Result<State>)
    ensures res.Ok? ==> Advances(s, res.value)
    ensures res.Ok? && Phased(s) ==> Phased(res.value)
    decreases |lines|
  {
    if lines == [] then Ok(s)
    else match Step(h, s, lines[0])
      case Err(e) => Err(e)
      case Ok(t) => Run(h, t, lines[1..])
  }

  /** The lines that are not empty, in order. */
  function NonBlank(lines: seq<string>): (r: seq<string>)
    ensures forall i :: 0 <= i < |r| ==> r[i] != ""
    ensures |r| <= |lines|
  {
    if lines == [] then []
    else if lines[0] == "" then NonBlank(lines[1..])
    else [lines[0]] + NonBlank(lines[1..])
  }

  /** Phase bookkeeping that never goes backwards: the header stays found, the
      charset once set never changes, EOM stays seen. */
  predicate Advances(s: State, t: State) {
    (s.bomFound ==> t.bomFound)
    && (s.charset.Some? ==> t.charset == s.charset)
    && (s.eomFound ==> t.eomFound)
  }

  /** The phases are reached in order: no charset before the header, no EOM
      and no block before the charset. */
  predicate Phased(s: State) {
    (s.charset.Some? ==> s.bomFound)
    && (s.eomFound ==> s.charset.Some?)
    && (s.current.Some? ==> s.charset.Some?)
  }

  // ---------------------------------------------------------------------------
  // Whole-file properties

  /** Reading `a` then `b` is reading `a`, then reading `b` from where `a` left
      off; an error in `a` ends the read there. */
  lemma {:induction false} RunAppend(h: Hooks, s: State, a: seq<string>, b: seq<string>)
    ensures Run(h, s, a + b) ==
      match Run(h, s, a)
      case Ok(t) => Run(h, t, b)
      case Err(e) => Err(e)
    decreases |a|
  {
    if a != [] {
      assert (a + b)[0] == a[0] && (a + b)[1..] == a[1..] + b;
      match Step(h, s, a[0])
      case Err(_) =>
      case Ok(t) => RunAppend(h, t, a[1..], b);
    } else {
      assert a + b == b;
    }
  }

  /** Fail-fast: once a line fails, no later line is looked at. */
  lemma ErrorStopsReading(h: Hooks, s: State, a: seq<string>, b: seq<string>)
    requires Run(h, s, a).Err?
    ensures Run(h, s, a + b) == Run(h, s, a)
  {
    RunAppend(h, s, a, b);
  }

  /** Reaching the end of the input is never an error in itself: every prefix
      of a file that reads without error reads without error too, however
      early it stops (before CSE, before EOM, or with no line at all). */
  lemma EndOfInputIsNotAnError(h: Hooks, s: State, a: seq<string>, b: seq<string>)
    requires Run(h, s, a + b).Ok?
    ensures Run(h, s, a).Ok?
    ensures Run(h, s, []) == Ok(s)
  {
    RunAppend(h, s, a, b);
  }

  /** Empty lines are skipped: they never become records and never change any
      state, so reading a file is reading its non-empty lines. */
  lemma {:induction false} BlankLinesIgnored(h: Hooks, s: State, lines: seq<string>)
    ensures Run(h, s, lines) == Run(h, s, NonBlank(lines))
    decreases |lines|
  {
    if lines != [] {
      BlankLinesIgnored(h, s, lines[1..]);
      if lines[0] != "" {
        match Step(h, s, lines[0])
        case Err(_) =>
        case Ok(t) => BlankLinesIgnored(h, t, lines[1..]);
      }
    }
  }

  /** The first non-empty line decides the next step: a read is the step on
      that line followed by the read of the remaining non-empty lines. */
  lemma FirstNonBlankDecides(h: Hooks, s: State, lines: seq<string>)
    requires NonBlank(lines) != []
    ensures var nb := NonBlank(lines);
      Run(h, s, lines) ==
        match Step(h, s, nb[0])
        case Err(e) => Err(e)
        case Ok(t) => Run(h, t, nb[1..])
  {
    BlankLinesIgnored(h, s, lines);
  }

  /** A file whose first non-empty record is not BOM fails with
      UnexpectedFirstRecord on that record, and conversely that error means
      exactly this. */
  lemma FirstRecordMustBeBom(h: Hooks, lines: seq<string>, r: Record)
    ensures Run(h, Initial, lines) == Err(UnexpectedFirstRecord(r)) <==>
      (NonBlank(lines) != [] && h.lex(NonBlank(lines)[0]) == Some(r) && r.name != "BOM")
  {
    if NonBlank(lines) == [] {
      BlankLinesIgnored(h, Initial, lines);
    } else {
      var nb := NonBlank(lines);
      FirstNonBlankDecides(h, Initial, lines);
      match h.lex(nb[0])
      case None =>
      case Some(r0) =>
        if r0.name == "BOM" {
          NoFirstRecordErrorAfterBom(h, Initial.(bomFound := true), nb[1..], r);
        }
    }
  }

  /** Once the header is found, UnexpectedFirstRecord can no longer occur. */
  lemma {:induction false} NoFirstRecordErrorAfterBom(h: Hooks, s: State, lines: seq<string>, r: Record)
    requires s.bomFound
    ensures Run(h, s, lines) != Err(UnexpectedFirstRecord(r))
    decreases |lines|
  {
    if lines != [] {
      match Step(h, s, lines[0])
      case Err(_) =>
      case Ok(t) =>
        NoFirstRecordErrorAfterBom(h, t, lines[1..], r);
    }
  }

  /** A BOM record as the first record only marks the header as found. */
  lemma BomOnlySetsBomFound(h: Hooks, r: Record)
    requires r.name == "BOM"
    ensures StepRecord(h, Initial, r) == Ok(State(true, None, false, None))
  {
  }

  /** After the header and before a charset, the next non-empty record must be
      CSE with a first value the resolver accepts; the charset comes from that
      value and nothing else changes. */
  lemma CharsetMustFollowBom(h: Hooks, s: State, lines: seq<string>)
    requires s.bomFound && s.charset.None?
    requires NonBlank(lines) != [] && h.lex(NonBlank(lines)[0]).Some?
    ensures var r := h.lex(NonBlank(lines)[0]).value;
      && (r.name != "CSE" ==> Run(h, s, lines) == Err(UnexpectedCharsetRecord(r)))
      && (r.name == "CSE" && r.values == [] ==> Run(h, s, lines) == Err(MissingValue(r)))
      && (r.name == "CSE" && r.values != [] && h.charsetOf(r.values[0]).None? ==>
            Run(h, s, lines) == Err(UnknownCharset(r)))
      && (r.name == "CSE" && r.values != [] && h.charsetOf(r.values[0]).Some? ==>
            Run(h, s, lines) == Run(h, s.(charset := h.charsetOf(r.values[0])), NonBlank(lines)[1..]))
  {
    FirstNonBlankDecides(h, s, lines);
  }

  /** After EOM a read succeeds exactly when no non-empty line follows, and then
      leaves the state as it was; the first non-empty record otherwise fails
      with RecordAfterEndOfFile. */
  lemma {:induction false} NothingAfterEndOfFile(h: Hooks, s: State, lines: seq<string>)
    requires s.bomFound && s.charset.Some? && s.eomFound
    ensures Run(h, s, lines).Ok? <==> NonBlank(lines) == []
    ensures Run(h, s, lines).Ok? ==> Run(h, s, lines).value == s
    ensures NonBlank(lines) != [] && h.lex(NonBlank(lines)[0]).Some? ==>
      Run(h, s, lines) == Err(RecordAfterEndOfFile(h.lex(NonBlank(lines)[0]).value))
  {
    BlankLinesIgnored(h, s, lines);
  }

  /** In the body, EOM ends the body without reaching the current block, even
      a block that would reject it. */
  lemma EomIsNotRouted(h: Hooks, s: State, r: Record)
    requires InBody(s) && r.name == "EOM"
    ensures StepRecord(h, s, r) == Ok(s.(eomFound := true))
  {
  }

  /** In the body, RTY replaces the current block by a fresh one of the type
      its first value names, with no identifier, and the previous block is
      gone; when the factory returns null there is no current block any more
      (so the next record other than RTY and EOM is an orphan), and when it
      throws the read fails on that RTY record with the block left as it was. */
  lemma RtyOpensBlock(h: Hooks, s: State, r: Record)
    requires InBody(s) && r.name == "RTY" && r.values != []
    ensures h.createBlock(r.values[0]).Created? ==>
      StepRecord(h, s, r) == Ok(s.(current := Some(BlockState(r.values[0], h.createBlock(r.values[0]).ownRecords, None))))
    ensures h.createBlock(r.values[0]) == CreatedNull ==> StepRecord(h, s, r) == Ok(s.(current := None))
    ensures h.createBlock(r.values[0]) == CreateFailed ==> StepRecord(h, s, r) == Err(BlockCreationFailed(r))
  {
  }

  /** A body record other than RTY and EOM with no current block is an orphan;
      with a current block it is that block's to accept or reject. */
  lemma BodyRecordsGoToCurrentBlock(h: Hooks, s: State, r: Record)
    requires InBody(s) && r.name != "RTY" && r.name != "EOM"
    ensures s.current.None? ==> StepRecord(h, s, r) == Err(OrphanRecord(r))
    ensures s.current.Some? ==>
      (StepRecord(h, s, r).Ok? <==> BlockStep(s.current.value, r).Ok?)
      && (StepRecord(h, s, r).Ok? ==>
            StepRecord(h, s, r).value == s.(current := Some(BlockStep(s.current.value, r).value)))
  {
  }

  /** The base block (one whose kind consumes no record itself) accepts RID and
      nothing else; RID with a declared length that is not positive clears the identifier. */
  lemma BaseBlockAcceptsOnlyRid(b: BlockState, r: Record)
    requires b.ownRecords == {}
    ensures BlockStep(b, r).Ok? <==> r.name == "RID" && (!Declared(r) || r.values != [])
    ensures r.name != "RID" ==> BlockStep(b, r) == Err(UnexpectedRecord(r))
    ensures BlockStep(b, r).Ok? && !Declared(r) ==> BlockStep(b, r).value.identifier == None
    ensures BlockStep(b, r).Ok? && Declared(r) ==> BlockStep(b, r).value.identifier == Some(r.values[0])
  {
  }

  /** A later RID overwrites whatever an earlier accepted record left: the
      block after both is the block after the later RID alone. */
  lemma LaterRidOverwrites(b: BlockState, r1: Record, r2: Record)
    requires BlockStep(b, r1).Ok?
    requires r2.name == "RID" && r2.name !in b.ownRecords
    ensures BlockStep(BlockStep(b, r1).value, r2) == BlockStep(b, r2)
  {
  }

  /** Predicate: no line of `lines` is lexed as an RTY record. */
  predicate NoRty(h: Hooks, lines: seq<string>) {
    forall i :: 0 <= i < |lines| && lines[i] != "" && h.lex(lines[i]).Some? ==> h.lex(lines[i]).value.name != "RTY"
  }

  /** A block's type never changes: without a new RTY, the current block at the
      end of a read has the type it had at the start. */
  lemma {:induction false} BlockTypeIsFixed(h: Hooks, s: State, lines: seq<string>)
    requires s.current.Some? && NoRty(h, lines)
    requires Run(h, s, lines).Ok?
    ensures Run(h, s, lines).value.current.Some?
    ensures Run(h, s, lines).value.current.value.blockType == s.current.value.blockType
    decreases |lines|
  {
    if lines != [] {
      assert NoRty(h, lines[1..]) by {
        forall i | 0 <= i < |lines[1..]| && lines[1..][i] != "" && h.lex(lines[1..][i]).Some?
          ensures h.lex(lines[1..][i]).value.name != "RTY"
        {
          assert lines[1..][i] == lines[i + 1];
        }
      }
      BlockTypeIsFixed(h, Step(h, s, lines[0]).value, lines[1..]);
    }
  }

  /** The two lines that open a block and name it: an RTY record whose first
      value is the type code, then an RID record with a declared value. */
  datatype BlockLines = BlockLines(rty: string, rid: string, blockType: string, id: string)

  predicate WellFormedBlock(h: Hooks, b: BlockLines) {
    && b.rty != "" && h.lex(b.rty).Some?
    && h.lex(b.rty).value.name == "RTY" && h.lex(b.rty).value.values != []
    && h.lex(b.rty).value.values[0] == b.blockType
    && b.rid != "" && h.lex(b.rid).Some?
    && h.lex(b.rid).value.name == "RID" && Declared(h.lex(b.rid).value)
    && h.lex(b.rid).value.values != [] && h.lex(b.rid).value.values[0] == b.id
    && h.createBlock(b.blockType).Created?
    && "RID" !in h.createBlock(b.blockType).ownRecords
  }

  function BlocksText(bs: seq<BlockLines>): (lines: seq<string>)
    ensures |lines| == 2 * |bs|
  {
    if bs == [] then [] else [bs[0].rty, bs[0].rid] + BlocksText(bs[1..])
  }

  /** The block the last of `bs` opens, named by its RID. */
  function LastBlock(h: Hooks, bs: seq<BlockLines>): BlockState
    requires bs != [] && WellFormedBlock(h, bs[|bs| - 1])
  {
    var b := bs[|bs| - 1];
    BlockState(b.blockType, h.createBlock(b.blockType).ownRecords, Some(b.id))
  }

  /** A body made of RTY/RID pairs reads without error; each RTY drops the
      block before it, so what is left is the last block, with its identifier. */
  lemma {:induction false} WellFormedBodyReads(h: Hooks, s: State, bs: seq<BlockLines>)
    requires InBody(s)
    requires forall i :: 0 <= i < |bs| ==> WellFormedBlock(h, bs[i])
    ensures Run(h, s, BlocksText(bs)) == Ok(if bs == [] then s else s.(current := Some(LastBlock(h, bs))))
    decreases |bs|
  {
    if bs != [] {
      var b := bs[0];
      var own := h.createBlock(b.blockType).ownRecords;
      var started := s.(current := Some(BlockState(b.blockType, own, None)));
      var named := s.(current := Some(BlockState(b.blockType, own, Some(b.id))));
      assert Step(h, s, b.rty) == Ok(started);
      assert Step(h, started, b.rid) == Ok(named);
      var text := BlocksText(bs);
      assert text == [b.rty, b.rid] + BlocksText(bs[1..]);
      RunAppend(h, s, [b.rty, b.rid], BlocksText(bs[1..]));
      assert [b.rty, b.rid][1..] == [b.rid] && [b.rid][1..] == [];
      assert Run(h, started, [b.rid]) == Ok(named);
      assert Run(h, s, [b.rty, b.rid]) == Ok(named);
      WellFormedBodyReads(h, named, bs[1..]);
      if bs[1..] != [] {
        assert LastBlock(h, bs[1..]) == LastBlock(h, bs);
      }
    }
  }

  /** A well-formed file, BOM, CSE, RTY/RID pairs and EOM, reads without error
      to a state past EOM whose current block is the last one opened. */
  lemma WellFormedFileReads(h: Hooks, bom: string, cse: string, c: Charset, bs: seq<BlockLines>, eom: string)
    requires bom != "" && h.lex(bom).Some? && h.lex(bom).value.name == "BOM"
    requires cse != "" && h.lex(cse).Some? && h.lex(cse).value.name == "CSE"
    requires h.lex(cse).value.values != [] && h.charsetOf(h.lex(cse).value.values[0]) == Some(c)
    requires forall i :: 0 <= i < |bs| ==> WellFormedBlock(h, bs[i])
    requires eom != "" && h.lex(eom).Some? && h.lex(eom).value.name == "EOM"
    ensures Run(h, Initial, [bom, cse] + BlocksText(bs) + [eom])
      == Ok(State(true, Some(c), true, if bs == [] then None else Some(LastBlock(h, bs))))
  {
    var s2 := State(true, Some(c), false, None);
    var s3 := if bs == [] then s2 else s2.(current := Some(LastBlock(h, bs)));
    assert Step(h, Initial, bom) == Ok(Initial.(bomFound := true));
    assert Step(h, Initial.(bomFound := true), cse) == Ok(s2);
    assert [bom, cse][1..] == [cse] && [cse][1..] == [];
    assert Run(h, Initial.(bomFound := true), [cse]) == Ok(s2);
    assert Run(h, Initial, [bom, cse]) == Ok(s2);
    WellFormedBodyReads(h, s2, bs);
    assert Step(h, s3, eom) == Ok(s3.(eomFound := true));
    assert [eom][1..] == [];
    assert Run(h, s3, [eom]) == Ok(s3.(eomFound := true));
    RunAppend(h, Initial, [bom, cse], BlocksText(bs));
    RunAppend(h, Initial, [bom, cse] + BlocksText(bs), [eom]);
  }

  /** The smallest well-formed file, BOM, CSE, RTY "PNO", RID "A1", EOM, reads
      to one block of type "PNO" with identifier "A1". */
  lemma SmallestFileReads(h: Hooks, lines: seq<string>, c: Charset, own: set<string>)
    requires |lines| == 5 && forall i :: 0 <= i < 5 ==> lines[i] != ""
    requires h.lex(lines[0]) == Some(Record("BOM", 12, ["E0000A01"]))
    requires h.lex(lines[1]) == Some(Record("CSE", 2, ["IRV"])) && h.charsetOf("IRV") == Some(c)
    requires h.lex(lines[2]) == Some(Record("RTY", 3, ["PNO"]))
    requires h.createBlock("PNO") == Created(own) && "RID" !in own
    requires h.lex(lines[3]) == Some(Record("RID", 2, ["A1"]))
    requires h.lex(lines[4]) == Some(Record("EOM", 0, []))
    ensures Run(h, Initial, lines) == Ok(State(true, Some(c), true, Some(BlockState("PNO", own, Some("A1")))))
  {
    var s1 := State(true, None, false, None);
    var s2 := s1.(charset := Some(c));
    var s3 := s2.(current := Some(BlockState("PNO", own, None)));
    var s4 := s3.(current := Some(BlockState("PNO", own, Some("A1"))));
    var s5 := s4.(eomFound := true);
    assert Step(h, s4, lines[4]) == Ok(s5) && Run(h, s5, lines[5..]) == Ok(s5);
    assert Run(h, s4, lines[4..]) == Ok(s5);
    assert Step(h, s3, lines[3]) == Ok(s4) && lines[3..][1..] == lines[4..];
    assert Run(h, s3, lines[3..]) == Ok(s5);
    assert Step(h, s2, lines[2]) == Ok(s3) && lines[2..][1..] == lines[3..];
    assert Run(h, s2, lines[2..]) == Ok(s5);
    assert Step(h, s1, lines[1]) == Ok(s2) && lines[1..][1..] == lines[2..];
    assert Run(h, s1, lines[1..]) == Ok(s5);
    assert Step(h, Initial, lines[0]) == Ok(s1);
  }
}
