/**
 * A reader for the grammar of section 2 of RFC 4180, written from the grammar alone, and the quoting
 * web/src/lib/csv.ts writes with. The reader undoes the writer.
 */
module Rfc4180 {
  import opened Options

  /** What an unquoted field may not hold. */
  predicate Special(c: char) {
    c == ',' || c == '"' || c == '\r' || c == '\n'
  }

  datatype Parsed<T> = Read(value: T, rest: string) | Malformed

  /** non-escaped = *TEXTDATA */
  function Plain(s: string): (r: (string, string))
    ensures s == r.0 + r.1
  {
    if s == "" || Special(s[0]) then ("", s)
    else var (v, rest) := Plain(s[1..]); ([s[0]] + v, rest)
  }

  /** The inside of an escaped field, after its opening quote: anything, with quotes written twice. */
  function Quoted(s: string): (r: Parsed<string>)
    ensures r.Read? ==> |r.rest| < |s|
  {
    if s == "" then Malformed
    else if s[0] != '"' then
      match Quoted(s[1..])
      case Read(v, rest) => Read([s[0]] + v, rest)
      case Malformed => Malformed
    else if |s| > 1 && s[1] == '"' then
      match Quoted(s[2..])
      case Read(v, rest) => Read(['"'] + v, rest)
      case Malformed => Malformed
    else Read("", s[1..])
  }

  /** field = (escaped / non-escaped) */
  function Field(s: string): (r: Parsed<string>)
    ensures r.Read? ==> |r.rest| <= |s|
  {
    if s != "" && s[0] == '"' then Quoted(s[1..]) else var (v, rest) := Plain(s); Read(v, rest)
  }

  /** record = field *(COMMA field) */
  function Record(s: string): (r: Parsed<seq<string>>)
    ensures r.Read? ==> |r.rest| <= |s|
    decreases |s|
  {
    match Field(s)
    case Malformed => Malformed
    case Read(v, rest) =>
      if rest == "" || rest[0] != ',' then Read([v], rest)
      else
        match Record(rest[1..])
        case Malformed => Malformed
        case Read(vs, end) => Read([v] + vs, end)
  }

  /** file = record *(CRLF record) [CRLF] */
  function File(s: string): Option<seq<seq<string>>>
    decreases |s|
  {
    match Record(s)
    case Malformed => None
    case Read(rec, rest) =>
      if rest == "" || rest == "\r\n" then Some([rec])
      else if |rest| < 2 || rest[..2] != "\r\n" then None
      else
        match File(rest[2..])
        case None => None
        case Some(recs) => Some([rec] + recs)
  }

  /* ---- the writer ---- */

  predicate NeedsQuotes(v: string) {
    exists k :: 0 <= k < |v| && Special(v[k])
  }

  /** value.replace(/"/g, '""') */
  function Doubled(v: string): string {
    if v == "" then "" else (if v[0] == '"' then "\"\"" else [v[0]]) + Doubled(v[1..])
  }

  function Quote(v: string): string {
    if NeedsQuotes(v) then "\"" + Doubled(v) + "\"" else v
  }

  function Join(parts: seq<string>, sep: string): string {
    if parts == [] then "" else if |parts| == 1 then parts[0] else parts[0] + sep + Join(parts[1..], sep)
  }

  function Quotes(cells: seq<string>): (r: seq<string>)
    ensures |r| == |cells| && forall k :: 0 <= k < |r| ==> r[k] == Quote(cells[k])
  {
    seq(|cells|, k requires 0 <= k < |cells| => Quote(cells[k]))
  }

  function Line(cells: seq<string>): string {
    Join(Quotes(cells), ",")
  }

  function Lines(recs: seq<seq<string>>): (r: seq<string>)
    ensures |r| == |recs| && forall k :: 0 <= k < |r| ==> r[k] == Line(recs[k])
  {
    seq(|recs|, k requires 0 <= k < |recs| => Line(recs[k]))
  }

  /** What may follow a field: nothing, a comma, or the end of the line. */
  predicate AfterField(rest: string) {
    rest == "" || rest[0] == ',' || rest[0] == '\r'
  }

  lemma TailIsPlain(v: string)
    requires v != "" && !NeedsQuotes(v)
    ensures !NeedsQuotes(v[1..])
  {
    forall k | 0 <= k < |v[1..]|
      ensures !Special(v[1..][k])
    {
      assert !Special(v[k + 1]);
    }
  }

  lemma {:induction false} PlainUndoes(v: string, rest: string)
    requires !NeedsQuotes(v) && AfterField(rest)
    ensures Plain(v + rest) == (v, rest)
  {
    if v == "" {
      assert v + rest == rest;
    } else {
      assert !Special(v[0]);
      TailIsPlain(v);
      PlainUndoes(v[1..], rest);
      assert (v + rest)[1..] == v[1..] + rest;
      HeadAndTail(v);
    }
  }

  lemma QuotedChar(c: char, tail: string)
    requires c != '"' && Quoted(tail).Read?
    ensures Quoted([c] + tail) == Read([c] + Quoted(tail).value, Quoted(tail).rest)
  {
    assert ([c] + tail)[1..] == tail;
  }

  lemma QuotedQuote(tail: string)
    requires Quoted(tail).Read?
    ensures Quoted(['"', '"'] + tail) == Read(['"'] + Quoted(tail).value, Quoted(tail).rest)
  {
    assert (['"', '"'] + tail)[2..] == tail;
  }

  lemma JustOne<T>(s: seq<T>)
    requires |s| == 1
    ensures s == [s[0]]
  {
  }

  lemma HeadAndTail<T>(s: seq<T>)
    requires s != []
    ensures s == [s[0]] + s[1..]
  {
  }

  lemma {:induction false} QuotedUndoes(v: string, rest: string)
    requires AfterField(rest)
    ensures Quoted(Doubled(v) + "\"" + rest) == Read(v, rest)
  {
    var s := Doubled(v) + "\"" + rest;
    if v == "" {
      assert s == ['"'] + rest;
      assert s[1..] == rest;
    } else {
      QuotedUndoes(v[1..], rest);
      var tail := Doubled(v[1..]) + "\"" + rest;
      if v[0] == '"' {
        assert s == ['"', '"'] + tail;
        QuotedQuote(tail);
      } else {
        assert s == [v[0]] + tail;
        QuotedChar(v[0], tail);
      }
      HeadAndTail(v);
    }
  }

  lemma QuotedField(t: string)
    ensures Field(['"'] + t) == Quoted(t)
  {
    assert (['"'] + t)[1..] == t;
  }

  lemma PlainField(s: string)
    requires s != "" ==> s[0] != '"'
    ensures Field(s) == Read(Plain(s).0, Plain(s).1)
  {
  }

  lemma Reassociate(v: string, rest: string)
    requires NeedsQuotes(v)
    ensures Quote(v) + rest == ['"'] + (Doubled(v) + "\"" + rest)
  {
  }

  /** However hostile the text, one field is read back as the text it was written from. */
  lemma FieldUndoes(v: string, rest: string)
    requires AfterField(rest)
    ensures Field(Quote(v) + rest) == Read(v, rest)
  {
    if NeedsQuotes(v) {
      Reassociate(v, rest);
      QuotedField(Doubled(v) + "\"" + rest);
      QuotedUndoes(v, rest);
    } else {
      PlainUndoes(v, rest);
      assert v != "" ==> !Special(v[0]);
      PlainField(v + rest);
    }
  }

  predicate AfterRecord(rest: string) {
    rest == "" || rest[0] == '\r'
  }

  lemma RecordMore(s: string, v: string, tail: string, vs: seq<string>, rest: string)
    requires Field(s) == Read(v, [','] + tail) && Record(tail) == Read(vs, rest)
    ensures Record(s) == Read([v] + vs, rest)
  {
    assert ([','] + tail)[1..] == tail;
  }

  lemma RecordEnds(s: string, v: string, rest: string)
    requires Field(s) == Read(v, rest) && AfterRecord(rest)
    ensures Record(s) == Read([v], rest)
  {
  }

  lemma LineMore(cells: seq<string>)
    requires |cells| > 1
    ensures Line(cells) == Quote(cells[0]) + "," + Line(cells[1..])
  {
    assert Quotes(cells)[1..] == Quotes(cells[1..]);
  }

  lemma Shift(a: string, b: string, c: string, d: string)
    ensures a + b + c + d == a + (b + (c + d))
  {
    assert a + b + c + d == a + (b + (c + d));
  }

  lemma {:induction false} RecordUndoes(cells: seq<string>, rest: string)
    requires cells != [] && AfterRecord(rest)
    ensures Record(Line(cells) + rest) == Read(cells, rest)
  {
    if |cells| == 1 {
      FieldUndoes(cells[0], rest);
      RecordEnds(Quote(cells[0]) + rest, cells[0], rest);
      JustOne(cells);
    } else {
      RecordUndoes(cells[1..], rest);
      LineMore(cells);
      var tail := Line(cells[1..]) + rest;
      Shift(Quote(cells[0]), ",", Line(cells[1..]), rest);
      FieldUndoes(cells[0], [','] + tail);
      RecordMore(Line(cells) + rest, cells[0], tail, cells[1..], rest);
      HeadAndTail(cells);
    }
  }

  lemma FileMore(s: string, rec: seq<string>, tail: string, recs: seq<seq<string>>)
    requires Record(s) == Read(rec, "\r\n" + tail) && tail != "" && File(tail) == Some(recs)
    ensures File(s) == Some([rec] + recs)
  {
    var rest := "\r\n" + tail;
    assert rest[..2] == "\r\n" && rest[2..] == tail;
    assert |rest| > 2;
  }

  lemma LinesMore(recs: seq<seq<string>>)
    requires |recs| > 1
    ensures Join(Lines(recs), "\r\n") == Line(recs[0]) + ("\r\n" + Join(Lines(recs[1..]), "\r\n"))
  {
    assert Lines(recs)[1..] == Lines(recs[1..]);
  }

  /** A file is read back as the records it was written from, as long as each has two fields or more. */
  lemma {:induction false} FileUndoes(recs: seq<seq<string>>)
    requires recs != [] && forall k :: 0 <= k < |recs| ==> |recs[k]| >= 2
    ensures File(Join(Lines(recs), "\r\n")) == Some(recs)
  {
    if |recs| == 1 {
      RecordUndoes(recs[0], "");
      assert Line(recs[0]) + "" == Line(recs[0]);
      JustOne(recs);
    } else {
      FileUndoes(recs[1..]);
      var tail := Join(Lines(recs[1..]), "\r\n");
      LinesMore(recs);
      RecordUndoes(recs[0], "\r\n" + tail);
      NotEmpty(recs[1..]);
      FileMore(Join(Lines(recs), "\r\n"), recs[0], tail, recs[1..]);
      HeadAndTail(recs);
    }
  }

  lemma NotEmpty(recs: seq<seq<string>>)
    requires recs != [] && |recs[0]| >= 2
    ensures Join(Lines(recs), "\r\n") != ""
  {
    LineMore(recs[0]);
    assert Line(recs[0]) != "";
  }
}
