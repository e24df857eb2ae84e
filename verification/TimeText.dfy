/**
 * Times in the cache tables (internal/db/string_time.go). What each layout parses is a parameter;
 * a time is a number, and the zero time, which stands for no time, is 0.
 */
module TimeText {
  import opened Wrappers

  datatype Layout = Rfc3339 | Rfc3339Nano | DateTime | DateOnly

  const LAYOUTS: seq<Layout> := [Rfc3339, Rfc3339Nano, DateTime, DateOnly]

  type Parser = (Layout, string) -> Option<int>

  const ZERO := 0

  /** A column value handed to Scan, or produced by Value. */
  datatype Column = Null | Time(t: int) | Text(s: string) | Bytes(b: string) | Other

  datatype TimeError = InvalidTime | CannotScan

  /** The first of the given layouts that parses the text. */
  function FirstParse(parse: Parser, layouts: seq<Layout>, s: string): Option<int> {
    if layouts == [] then None
    else if parse(layouts[0], s).Some? then parse(layouts[0], s)
    else FirstParse(parse, layouts[1..], s)
  }

  /** What a stored text says: RFC 3339, then with nanoseconds, then date and time, then the date alone. */
  function Parsed(parse: Parser, s: string): Option<int> {
    match parse(Rfc3339, s)
    case Some(t) => Some(t)
    case None =>
      match parse(Rfc3339Nano, s)
      case Some(t) => Some(t)
      case None =>
        match parse(DateTime, s)
        case Some(t) => Some(t)
        case None => parse(DateOnly, s)
  }

  lemma ParsedIs(parse: Parser, s: string)
    ensures FirstParse(parse, LAYOUTS, s) == Parsed(parse, s)
  {
    assert LAYOUTS[1..] == [Rfc3339Nano, DateTime, DateOnly];
    assert [Rfc3339Nano, DateTime, DateOnly][1..] == [DateTime, DateOnly];
    assert [DateTime, DateOnly][1..] == [DateOnly] && [DateOnly][1..] == [];
    assert FirstParse(parse, [], s) == None;
    assert FirstParse(parse, [DateOnly], s) == parse(DateOnly, s);
    assert FirstParse(parse, [DateTime, DateOnly], s)
        == if parse(DateTime, s).Some? then parse(DateTime, s) else parse(DateOnly, s);
  }

  /** A text that one layout alone parses, whichever of the four it is, has the time of that layout. */
  lemma OneLayoutDecides(parse: Parser, s: string, layout: Layout)
    requires forall other: Layout | other != layout :: parse(other, s).None?
    ensures Parsed(parse, s) == parse(layout, s)
  {
    assert layout != Rfc3339 ==> parse(Rfc3339, s) == None;
    assert layout != Rfc3339Nano ==> parse(Rfc3339Nano, s) == None;
    assert layout != DateTime ==> parse(DateTime, s) == None;
    assert layout != DateOnly ==> parse(DateOnly, s) == None;
  }

  /** The loop gives up on the first layout that fails, so only the first is ever tried. */
  method NewTimeString(parse: Parser, s: string) returns (r: Result<int, TimeError>)
    ensures r == match parse(Rfc3339, s) case Some(t) => Ok(t) case None => Err(InvalidTime)
  {
    for i := 0 to |LAYOUTS|
      invariant i == 0
    {
      match parse(LAYOUTS[i], s) {
        case None => return Err(InvalidTime);
        case Some(t) => return Ok(t);
      }
    }
    return Err(InvalidTime);
  }

  class TimeString {
    var time: int

    constructor (t: int)
      ensures time == t
    {
      time := t;
    }

    method Parse(parse: Parser, s: string) returns (r: Result<(), TimeError>)
      modifies this
      ensures match Parsed(parse, s)
              case Some(t) => r == Ok(()) && time == t
              case None => r == Err(InvalidTime) && time == old(time)
    {
      ParsedIs(parse, s);
      for i := 0 to |LAYOUTS|
        invariant time == old(time)
        invariant FirstParse(parse, LAYOUTS, s) == FirstParse(parse, LAYOUTS[i..], s)
      {
        assert LAYOUTS[i..][1..] == LAYOUTS[i + 1..];
        var t := parse(LAYOUTS[i], s);
        if t.Some? {
          time := t.value;
          return Ok(());
        }
      }
      return Err(InvalidTime);
    }

    /** NULL leaves the receiver as it was. */
    method Scan(parse: Parser, value: Column) returns (r: Result<(), TimeError>)
      modifies this
      ensures time == match value
                      case Null | Other => old(time)
                      case Time(t) => t
                      case Text(s) => Parsed(parse, s).GetOr(old(time))
                      case Bytes(s) => Parsed(parse, s).GetOr(old(time))
      ensures r.Ok? == match value
                       case Null | Time(_) => true
                       case Other => false
                       case Text(s) => Parsed(parse, s).Some?
                       case Bytes(s) => Parsed(parse, s).Some?
    {
      match value {
        case Null => return Ok(());
        case Time(t) => time := t; return Ok(());
        case Text(s) => r := Parse(parse, s);
        case Bytes(s) => r := Parse(parse, s);
        case Other => return Err(CannotScan);
      }
    }

    function Value(): Column
      reads this
    {
      if time == ZERO then Null else Time(time)
    }

    /** Storing a time and scanning it back gives that time, unless it is the zero time and the
        receiver was used before. */
    method StoreAndScan(parse: Parser, into: TimeString) returns (r: Result<(), TimeError>)
      modifies into
      ensures r.Ok?
      ensures into.time == old(time) <==> old(time) != ZERO || old(into.time) == ZERO
    {
      r := into.Scan(parse, Value());
    }
  }
}
