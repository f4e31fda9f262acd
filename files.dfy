/** The reader as the source writes it: a `Block` object whose identifier RID
    updates, and an `EdigeoFile` object whose constructor loops over the lines
    and updates `bomFound`, `charset`, `eomFound` and `currentBlock`. Every
    method is proved to do what the matching function of EdigeoReader says. */
module EdigeoFiles {
  import opened EdigeoValues
  import opened EdigeoRecords
  import opened EdigeoReader

  /** A block descriptor: a fixed type code and the identifier RID sets. */
  class Block {
    const blockType: string
    /** Record names the concrete block kind consumes itself (none for the base block). */
    const ownRecords: set<string>
    var identifier: Option<string>

    function View(): BlockState
      reads this
    {
      BlockState(blockType, ownRecords, identifier)
    }

    constructor (blockType: string, ownRecords: set<string>)
      ensures View() == BlockState(blockType, ownRecords, None)
    {
      this.blockType := blockType;
      this.ownRecords := ownRecords;
      identifier := None;
    }

    /** `Block.processRecord`; on an error the block is left unchanged. */
    method ProcessRecord(r: Record) returns (err: Option<Error>)
      modifies this
      ensures Reports(BlockStep(old(View()), r), err, View(), old(View()))
    {
      if r.name in ownRecords {
        return None;
      }
      if r.name == "RID" {
        var v := SafeGetAndLog(r, IdentifierLabel);
        if v.Err? {
          return Some(v.error);
        }
        identifier := v.value.value;
        return None;
      }
      return Some(UnexpectedRecord(r));
    }
  }

  /** The state of one file being read. */
  class EdigeoFile {
    /** The lexer, the charset resolver and the `createBlock` factory. */
    const hooks: Hooks
    var bomFound: bool
    var eomFound: bool
    var charset: Option<Charset>
    var currentBlock: Block?

    function View(): State
      reads this, currentBlock
    {
      State(bomFound, charset, eomFound, if currentBlock == null then None else Some(currentBlock.View()))
    }

    constructor (hooks: Hooks)
      ensures this.hooks == hooks && View() == Initial
    {
      this.hooks := hooks;
      bomFound, eomFound, charset, currentBlock := false, false, None, null;
    }

    /** `createBlock`: a new block of the kind the factory gives for
        `blockType`, or null; `failed` where the factory throws. */
    method CreateBlock(blockType: string) returns (b: Block?, failed: bool)
      ensures failed <==> hooks.createBlock(blockType).CreateFailed?
      ensures !failed ==> (b == null <==> hooks.createBlock(blockType).CreatedNull?)
      ensures b != null ==> fresh(b) && hooks.createBlock(blockType).Created?
                            && b.View() == BlockState(blockType, hooks.createBlock(blockType).ownRecords, None)
    {
      match hooks.createBlock(blockType)
      case Created(own) =>
        b := new Block(blockType, own);
        failed := false;
      case CreatedNull =>
        b, failed := null, false;
      case CreateFailed =>
        b, failed := null, true;
    }

    /** `processRecord`: RTY replaces the current block by the one the factory
        gives, any other record goes to the current block, which must exist. */
    method ProcessRecord(r: Record) returns (err: Option<Error>)
      modifies this, currentBlock
      ensures Reports(BodyStep(hooks, old(View()), r), err, View(), old(View()))
      ensures currentBlock == null || currentBlock == old(currentBlock) || fresh(currentBlock)
    {
      if r.name == "RTY" {
        if |r.values| == 0 {
          return Some(MissingValue(r));
        }
        var b, failed := CreateBlock(r.values[0]);
        if failed {
          return Some(BlockCreationFailed(r));
        }
        currentBlock := b;
        return None;
      }
      if currentBlock == null {
        return Some(OrphanRecord(r));
      }
      err := currentBlock.ProcessRecord(r);
    }

    /** The body of the read loop for one line. */
    method ReadLine(line: string) returns (err: Option<Error>)
      modifies this, currentBlock
      ensures Reports(Step(hooks, old(View()), line), err, View(), old(View()))
      ensures currentBlock == null || currentBlock == old(currentBlock) || fresh(currentBlock)
    {
      if line == "" {
        return None;
      }
      var lexed := hooks.lex(line);
      if lexed.None? {
        return Some(MalformedRecord(line));
      }
      var r := lexed.value;
      // Begin of file
      if !bomFound {
        bomFound := r.name == "BOM";
        if !bomFound {
          return Some(UnexpectedFirstRecord(r));
        }
        return None;
      }
      // Charset
      if charset.None? {
        if r.name != "CSE" {
          return Some(UnexpectedCharsetRecord(r));
        }
        if |r.values| == 0 {
          return Some(MissingValue(r));
        }
        var c := hooks.charsetOf(r.values[0]);
        if c.None? {
          return Some(UnknownCharset(r));
        }
        charset := c;
        return None;
      }
      // Body records and end of file
      if eomFound {
        return Some(RecordAfterEndOfFile(r));
      }
      eomFound := r.name == "EOM";
      if !eomFound {
        err := ProcessRecord(r);
      } else {
        err := None;
      }
    }

    /** The constructor of the source: read every line in order and stop at the
        first error. The file that results is the one `Run` describes. */
    static method Open(hooks: Hooks, lines: seq<string>) returns (res: Result<EdigeoFile>)
      ensures res.Ok? <==> Run(hooks, Initial, lines).Ok?
      ensures res.Ok? ==> fresh(res.value) && res.value.hooks == hooks
                          && res.value.View() == Run(hooks, Initial, lines).value
      ensures res.Err? ==> res.error == Run(hooks, Initial, lines).error
    {
      var f := new EdigeoFile(hooks);
      var i := 0;
      while i < |lines|
        invariant 0 <= i <= |lines|
        invariant f.hooks == hooks
        invariant f.currentBlock == null || fresh(f.currentBlock)
        invariant Run(hooks, Initial, lines) == Run(hooks, f.View(), lines[i..])
      {
        assert lines[i..][1..] == lines[i + 1..];
        var err := f.ReadLine(lines[i]);
        if err.Some? {
          return Err(err.value);
        }
        i := i + 1;
      }
      return Ok(f);
    }
  }
}
