/**
 The text of one session's messages.jsonl, as far as it decides what the next boot
 reads: which lines hold a whole record, and how the text ends.

 A line is unreadable when it is longer than the scanner's buffer, or when it was
 written behind text that lacks its line break: a proper part of one JSON object
 followed by another object, or two objects on one line, never parse.
 */
module JournalFile {
  import opened FrameMessaging

  datatype Line = Whole(record: Record) | Unreadable

  /** What follows the last line break: nothing, part of a line, or a line that lacks only its break. */
  datatype Tail = Ended | Fragment | Unended(record: Record)

  datatype File = File(lines: seq<Line>, tail: Tail)

  /**
   What came of one append: a line of `bytes` bytes was written; nothing was; or the
   write was cut short, and `parses` says whether the line break was all it lacked.
   */
  datatype Append = Written(bytes: nat) | NotWritten | Cut(parses: bool)

  const EMPTY := File([], Ended)

  /** `sc.Buffer(..., 1<<20)`: the longest line, with its break, that the load can scan. */
  const SCANNER_LIMIT := 0x10_0000

  function Appended(f: File, rec: Record, a: Append): File {
    match a
    case Written(bytes) =>
      File(f.lines + [if f.tail.Ended? && bytes <= SCANNER_LIMIT then Whole(rec) else Unreadable], Ended)
    case NotWritten => f
    case Cut(parses) => f.(tail := if f.tail.Ended? && parses then Unended(rec) else Fragment)
  }

  /** The records of the lines that can be read. */
  function Records(f: File): seq<Record> {
    WholeRecords(f.lines) + if f.tail.Unended? then [f.tail.record] else []
  }

  function WholeRecords(lines: seq<Line>): seq<Record> {
    if lines == [] then []
    else
      var last := lines[|lines| - 1];
      WholeRecords(lines[..|lines| - 1]) + if last.Whole? then [last.record] else []
  }

  /** `loadFrameMessagingFromJournal` returns no error. */
  predicate Loads(f: File) {
    Unreadable !in f.lines && !f.tail.Fragment?
  }

  /** Every readable append adds its record at the end; every other one is for good. */
  lemma AppendedLoads(f: File, rec: Record, a: Append)
    ensures Loads(Appended(f, rec, a)) <==>
            Loads(f) && match a case Written(bytes) => f.tail.Ended? && bytes <= SCANNER_LIMIT
                                case NotWritten => true
                                case Cut(parses) => f.tail.Ended? && parses
    ensures Loads(Appended(f, rec, a)) ==>
              Records(Appended(f, rec, a)) == Records(f) + if a.NotWritten? then [] else [rec]
  {
    if a.Written? {
      var lines := Appended(f, rec, a).lines;
      assert lines[..|lines| - 1] == f.lines && lines[|f.lines|] in lines;
      assert forall l :: l in f.lines ==> l in lines;
    }
  }
}
