/**
 * The producer's offset store: the commit-log position that processing has
 * durably reached, kept in memory and in the one-line file `commitlog_offset.dat`
 * of the CDC log directory, read back when the producer starts.
 */
module OffsetStore {
  import opened Wrappers
  import opened JavaNumbers

  /** The field delimiter of the offset file: the platform's path separator, fixed to the Unix one. */
  const PATH_SEPARATOR: char := ':'

  /** A location in the commit log: a segment id and a byte position inside that segment. */
  datatype CommitLogPosition = CommitLogPosition(segmentId: Long, position: Int)

  /** The position a store starts from when there is no offset file yet. */
  const ORIGIN: CommitLogPosition := CommitLogPosition(0, 0)

  /** The exceptions the store's operations may throw. */
  datatype StoreException =
    | IOException
    | NullPointerException
    | ArrayIndexOutOfBoundsException
    | NumberFormatException

  /** The offset file's content for `p`: decimal segment id, separator, decimal position. */
  function SerializePosition(p: CommitLogPosition): (r: string)
    ensures PATH_SEPARATOR in r
    ensures forall i :: 0 <= i < |r| ==> !IsLineTerminator(r[i])
    ensures |r| == |ToDecimal(p.segmentId)| + 1 + |ToDecimal(p.position)|
    ensures r[..|ToDecimal(p.segmentId)|] == ToDecimal(p.segmentId)
    ensures r[|ToDecimal(p.segmentId)|] == PATH_SEPARATOR
    ensures r[|ToDecimal(p.segmentId)| + 1..] == ToDecimal(p.position)
  {
    ToDecimal(p.segmentId) + [PATH_SEPARATOR] + ToDecimal(p.position)
  }

  /**
   * Splits at the separator, then parses the first field as a `long` and the
   * second as an `int`, failing in the order Java evaluates them; fields after
   * the second are ignored.
   */
  function DeserializePosition(s: string): (r: Result<CommitLogPosition, StoreException>)
    ensures r.Success? ==> PATH_SEPARATOR in s
    ensures s == [] ==> r == Failure(NumberFormatException)
  {
    var fields := Split(s, PATH_SEPARATOR);
    if |fields| == 0 then Failure(ArrayIndexOutOfBoundsException)
    else match ParseLong(fields[0])
      case None => Failure(NumberFormatException)
      case Some(segmentId) =>
        if |fields| < 2 then Failure(ArrayIndexOutOfBoundsException)
        else match ParseInt(fields[1])
          case None => Failure(NumberFormatException)
          case Some(position) => Success(CommitLogPosition(segmentId, position))
  }

  /** The serialised form has exactly two fields, the decimal renderings of the two components. */
  lemma SerializedFields(p: CommitLogPosition)
    ensures Split(SerializePosition(p), PATH_SEPARATOR) == [ToDecimal(p.segmentId), ToDecimal(p.position)]
  {
    SplitAroundSeparator(ToDecimal(p.segmentId), PATH_SEPARATOR, ToDecimal(p.position));
  }

  /** Deserialisation inverts serialisation. */
  lemma DeserializeSerialize(p: CommitLogPosition)
    ensures DeserializePosition(SerializePosition(p)) == Success(p)
  {
    SerializedFields(p);
    ParseIntegerOfToDecimal(p.segmentId, LONG_MIN, LONG_MAX);
    ParseIntegerOfToDecimal(p.position, INT_MIN, INT_MAX);
  }

  /** What `loadOffset` makes of a file it could read: the parse of its first line (null when empty). */
  function LoadPosition(content: string): (r: Result<CommitLogPosition, StoreException>)
    ensures content == [] ==> r == Failure(NullPointerException)
    ensures r.Success? ==> PATH_SEPARATOR in content
  {
    match FirstLine(content)
    case None => Failure(NullPointerException)
    case Some(line) => DeserializePosition(line)
  }

  /** A file written by `saveOffset` for `p` is loaded back as `p`. */
  lemma LoadSerialized(p: CommitLogPosition)
    ensures LoadPosition(SerializePosition(p)) == Success(p)
  {
    FirstLineOfSingleLine(SerializePosition(p));
    DeserializeSerialize(p);
  }

  /** The flush policies a store can be given; the store always uses the first. */
  datatype OffsetFlushPolicy = AlwaysFlushOffsetPolicy {
    /** Whether to persist now, given the time since the last flush and the events not yet committed. */
    function ShouldFlush(elapsedMillis: int, notCommittedEvents: int): (r: bool)
      ensures AlwaysFlushOffsetPolicy? ==> r
    {
      match this
      case AlwaysFlushOffsetPolicy => true
    }
  }

  class OffsetFileWriter {
    /** The in-memory position (`fileOffsetRef`). */
    var fileOffset: CommitLogPosition
    /** The content of the offset file; `None` while it does not exist. */
    var offsetFile: Option<string>
    var timeOfLastFlush: int
    var notCommittedEvents: int
    const offsetFlushPolicy: OffsetFlushPolicy
    /** The position a restart would read back from the offset file. */
    ghost var durable: CommitLogPosition

    /** The offset file exists and loading it yields `durable`. */
    ghost predicate Valid()
      reads this
    {
      offsetFile.Some? && LoadPosition(offsetFile.value) == Success(durable)
    }

    /** The field initialisers and the first half of the Java constructor, before `init`. */
    constructor Make(file: Option<string>, now: int)
      ensures fileOffset == ORIGIN && offsetFile == file
      ensures timeOfLastFlush == now && notCommittedEvents == 0
      ensures offsetFlushPolicy == AlwaysFlushOffsetPolicy
    {
      fileOffset := ORIGIN;
      offsetFile := file;
      timeOfLastFlush := now;
      notCommittedEvents := 0;
      offsetFlushPolicy := AlwaysFlushOffsetPolicy;
      durable := ORIGIN;
    }

    /**
     * The Java constructor: a store over the CDC directory's offset file, whose
     * content is `file` (`None` when it does not exist). `ioFails` says whether
     * the file system refuses the read, the directory creation or the write.
     */
    static method Open(file: Option<string>, now: int, ioFails: bool) returns (r: Result<OffsetFileWriter, StoreException>)
      ensures r.Success? ==> fresh(r.value) && r.value.Valid()
      ensures r.Success? ==> r.value.timeOfLastFlush == now && r.value.notCommittedEvents == 0
      ensures r.Success? ==> r.value.offsetFlushPolicy == AlwaysFlushOffsetPolicy
      ensures r.Success? ==> r.value.durable == r.value.fileOffset
      ensures ioFails ==> r == Failure(IOException)
      ensures file.None? && !ioFails ==>
        r.Success? && r.value.fileOffset == ORIGIN && r.value.offsetFile == Some(SerializePosition(ORIGIN))
      ensures file.Some? && !ioFails ==>
        match LoadPosition(file.value)
        case Failure(e) => r == Failure(e)
        case Success(p) => r.Success? && r.value.fileOffset == p && r.value.offsetFile == file
    {
      var w := new OffsetFileWriter.Make(file, now);
      var o := w.Init(ioFails);
      match o
      case Fail(e) => r := Failure(e);
      case Pass => r := Success(w);
    }

    /** `init`: load the file when it exists, otherwise create the directory and save (0,0). */
    method Init(ioFails: bool) returns (o: Outcome<StoreException>)
      requires fileOffset == ORIGIN
      modifies this`fileOffset, this`offsetFile, this`durable
      ensures o.Pass? ==> Valid() && durable == fileOffset
      ensures ioFails ==> o == Fail(IOException)
      ensures old(offsetFile).None? && !ioFails ==>
        o.Pass? && fileOffset == ORIGIN && offsetFile == Some(SerializePosition(ORIGIN))
      ensures old(offsetFile).Some? && !ioFails ==>
        offsetFile == old(offsetFile) &&
        match LoadPosition(old(offsetFile).value)
        case Failure(e) => o == Fail(e)
        case Success(p) => o.Pass? && fileOffset == p
    {
      if offsetFile.Some? {
        o := LoadOffset(ioFails);
      } else if ioFails {
        // creating the parent directory failed
        o := Fail(IOException);
      } else {
        o := SaveOffset(false);
      }
    }

    /** `loadOffset`: the in-memory position becomes the parse of the file's first line. */
    method LoadOffset(ioFails: bool) returns (o: Outcome<StoreException>)
      requires offsetFile.Some?
      modifies this`fileOffset, this`durable
      ensures ioFails ==> o == Fail(IOException) && fileOffset == old(fileOffset)
      ensures !ioFails ==>
        match LoadPosition(offsetFile.value)
        case Failure(e) => o == Fail(e) && fileOffset == old(fileOffset)
        case Success(p) => o == Pass && fileOffset == p && durable == p
      ensures o.Pass? ==> Valid()
    {
      if ioFails {
        return Fail(IOException);
      }
      var loaded := LoadPosition(offsetFile.value);
      match loaded
      case Failure(e) => o := Fail(e);
      case Success(p) =>
        fileOffset := p;
        durable := p;
        o := Pass;
    }

    /** `saveOffset`: overwrite the file with the in-memory position, or rethrow the write's failure. */
    method SaveOffset(ioFails: bool) returns (o: Outcome<StoreException>)
      modifies this`offsetFile, this`durable
      ensures ioFails ==> o == Fail(IOException) && offsetFile == old(offsetFile) && durable == old(durable)
      ensures !ioFails ==> o == Pass && offsetFile == Some(SerializePosition(fileOffset)) && durable == fileOffset
      ensures !ioFails || old(Valid()) ==> Valid()
    {
      if ioFails {
        return Fail(IOException);
      }
      offsetFile := Some(SerializePosition(fileOffset));
      durable := fileOffset;
      LoadSerialized(fileOffset);
      o := Pass;
    }

    /** `offset`: the in-memory position. */
    method Offset() returns (p: CommitLogPosition)
      ensures p == fileOffset
    {
      p := fileOffset;
    }

    /** `markOffset`: replace the in-memory position; the file is not touched. */
    method MarkOffset(p: CommitLogPosition)
      requires Valid()
      modifies this`fileOffset
      ensures Valid()
      ensures fileOffset == p
    {
      fileOffset := p;
    }

    /** `flush`: persist the in-memory position; a write failure is rethrown. */
    method Flush(ioFails: bool) returns (o: Outcome<StoreException>)
      requires Valid()
      modifies this`offsetFile, this`durable
      ensures Valid()
      ensures ioFails ==> o == Fail(IOException) && offsetFile == old(offsetFile) && durable == old(durable)
      ensures !ioFails ==> o == Pass && offsetFile == Some(SerializePosition(fileOffset)) && durable == fileOffset
    {
      o := SaveOffset(ioFails);
    }

    /** `close`: one last save of the in-memory position; a write failure is rethrown. */
    method Close(ioFails: bool) returns (o: Outcome<StoreException>)
      requires Valid()
      modifies this`offsetFile, this`durable
      ensures Valid()
      ensures ioFails ==> o == Fail(IOException) && offsetFile == old(offsetFile) && durable == old(durable)
      ensures !ioFails ==> o == Pass && offsetFile == Some(SerializePosition(fileOffset)) && durable == fileOffset
    {
      o := SaveOffset(ioFails);
    }

    /**
     * `maybeCommitOffset` for a mutation at `record`, at time `now`: when the
     * policy says so, mark and flush the record's position and reset the flush
     * bookkeeping. A failed flush is swallowed: the mark stays, the bookkeeping
     * keeps its old values.
     */
    method MaybeCommitOffset(record: CommitLogPosition, now: int, ioFails: bool)
      requires Valid()
      modifies this`fileOffset, this`offsetFile, this`durable, this`timeOfLastFlush, this`notCommittedEvents
      ensures Valid()
      ensures var flush := offsetFlushPolicy.ShouldFlush(now - old(timeOfLastFlush), old(notCommittedEvents));
        (flush ==> fileOffset == record) &&
        (flush && !ioFails ==>
          offsetFile == Some(SerializePosition(record)) && durable == record &&
          notCommittedEvents == 0 && timeOfLastFlush == now) &&
        (!flush || ioFails ==>
          offsetFile == old(offsetFile) && durable == old(durable) &&
          notCommittedEvents == old(notCommittedEvents) && timeOfLastFlush == old(timeOfLastFlush)) &&
        (!flush ==> fileOffset == old(fileOffset))
    {
      var timeSinceLastFlush := now - timeOfLastFlush;
      if offsetFlushPolicy.ShouldFlush(timeSinceLastFlush, notCommittedEvents) {
        MarkOffset(record);
        var o := Flush(ioFails);
        if o.Pass? {
          notCommittedEvents := 0;
          timeOfLastFlush := now;
        }
      }
    }
  }

  /**
   * A restart over the file a store left behind: the new store comes up at the
   * position the old one last saved, not at (0,0).
   */
  method Reopen(store: OffsetFileWriter, now: int) returns (r: Result<OffsetFileWriter, StoreException>)
    requires store.Valid()
    ensures r.Success? && fresh(r.value) && r.value.Valid()
    ensures r.value.fileOffset == store.durable
  {
    r := OffsetFileWriter.Open(store.offsetFile, now, false);
  }

  /** Marking `p` and flushing it, then restarting, recovers `p`. */
  method FlushThenReopen(store: OffsetFileWriter, p: CommitLogPosition, now: int) returns (recovered: CommitLogPosition)
    requires store.Valid()
    modifies store
    ensures recovered == p
  {
    store.MarkOffset(p);
    var o := store.Flush(false);
    var r := Reopen(store, now);
    recovered := r.value.Offset();
  }
}
