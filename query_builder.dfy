/**
 * `PostgresInsert._build_insert_query_string`: the INSERT statement text for one
 * record.
 *
 * The builder fills the fixed template `INSERT INTO %s (%s) VALUES (%s)` with
 * three string arguments (the table name, the record's keys joined by ", ",
 * and one "%s" per key joined by ", "), hands template and arguments to the
 * cursor's `mogrify`, and deletes every single-quote byte from what `mogrify`
 * returns. The record's values are not part of the text: they travel to
 * `execute` separately, as a tuple in key order.
 *
 * `mogrify` belongs to the database driver, so it is a parameter here.
 */
module QueryBuilder {
  import opened Wrappers
  import opened Records

  /** The cursor's `mogrify(template, args)`: the driver's rendering of the template
      with each argument substituted for one "%s", or `None` when the driver raises. */
  type Mogrify = (string, seq<string>) -> Option<Bytes>

  const Template: string := "INSERT INTO %s (%s) VALUES (%s)"
  const Separator: string := ", "
  const Placeholder: string := "%s"

  /** The byte of `'`. */
  const Quote: Byte := 39

  /** Python's `sep.join(parts)`. */
  function Join(parts: seq<string>, sep: string): string
  {
    if |parts| == 0 then ""
    else if |parts| == 1 then parts[0]
    else parts[0] + sep + Join(parts[1..], sep)
  }

  /** Python's `['%s'] * n`. */
  function Placeholders(n: nat): seq<string>
  {
    seq(n, _ => Placeholder)
  }

  /** The three arguments the builder passes to `mogrify`. */
  function TemplateArgs(table: string, rec: Record): seq<string>
  {
    [table, Join(Keys(rec), Separator), Join(Placeholders(|rec|), Separator)]
  }

  /** `b.replace(b"'", b'')`: the bytes of `b` without its quote bytes. */
  function StripQuotes(b: Bytes): (r: Bytes)
    ensures Quote !in r
    ensures |r| <= |b|
    ensures Quote !in b ==> r == b
  {
    if b == [] then []
    else (if b[0] == Quote then [] else [b[0]]) + StripQuotes(b[1..])
  }

  /** The query `_build_insert_query_string` returns, or `None` when it raises.
      It raises exactly when `mogrify` does, and what it returns holds no quote byte. */
  function BuildInsertQuery(mogrify: Mogrify, table: string, rec: Record): (r: Option<Bytes>)
    ensures r.Some? <==> mogrify(Template, TemplateArgs(table, rec)).Some?
    ensures r.Some? ==> Quote !in r.value
  {
    match mogrify(Template, TemplateArgs(table, rec))
    case None => None
    case Some(rendered) => Some(StripQuotes(rendered))
  }

  /** The built query is the driver's rendering with its quote bytes removed and
      every other byte kept, as often as it occurred. */
  lemma BuiltQueryKeepsOtherBytes(mogrify: Mogrify, table: string, rec: Record)
    requires BuildInsertQuery(mogrify, table, rec).Some?
    ensures multiset(BuildInsertQuery(mogrify, table, rec).value)
         == multiset(mogrify(Template, TemplateArgs(table, rec)).value)[Quote := 0]
  {
    StripQuotesKeepsOtherBytes(mogrify(Template, TemplateArgs(table, rec)).value);
  }

  /** Stripping works byte by byte: it distributes over concatenation, so every
      byte that is not a quote keeps its place relative to the others. */
  lemma {:induction false} StripQuotesConcat(a: Bytes, b: Bytes)
    ensures StripQuotes(a + b) == StripQuotes(a) + StripQuotes(b)
  {
    if a == [] {
      assert a + b == b;
    } else {
      assert (a + b)[1..] == a[1..] + b;
      StripQuotesConcat(a[1..], b);
    }
  }

  /** Stripping removes every quote byte and no other byte. */
  lemma {:induction false} StripQuotesKeepsOtherBytes(b: Bytes)
    ensures multiset(StripQuotes(b)) == multiset(b)[Quote := 0]
  {
    if b != [] {
      var tail := StripQuotes(b[1..]);
      StripQuotesKeepsOtherBytes(b[1..]);
      assert b == [b[0]] + b[1..];
      assert multiset(b) == multiset{b[0]} + multiset(b[1..]);
      if b[0] == Quote {
        assert StripQuotes(b) == tail;
        assert multiset(b)[Quote := 0] == multiset(b[1..])[Quote := 0];
      } else {
        assert StripQuotes(b) == [b[0]] + tail;
        assert multiset(StripQuotes(b)) == multiset{b[0]} + multiset(tail);
      }
    }
  }

  /** Number of "%s" markers in a text. */
  function MarkerCount(s: string): nat
  {
    if |s| < 2 then 0
    else (if s[0] == '%' && s[1] == 's' then 1 else 0) + MarkerCount(s[1..])
  }

  /** The placeholder list holds exactly one marker per column of the record. */
  lemma {:induction false} PlaceholderListHasOneMarkerPerColumn(n: nat)
    ensures MarkerCount(Join(Placeholders(n), Separator)) == n
  {
    if n == 1 {
      assert Join(Placeholders(1), Separator) == "%s";
    } else if n > 1 {
      var rest := Join(Placeholders(n - 1), Separator);
      PlaceholderListUnfold(n);
      MarkerCountAfterSeparator(rest);
      PlaceholderListHasOneMarkerPerColumn(n - 1);
    }
  }

  /** A list of two or more placeholders is one placeholder, a separator and
      the rest of the list, which starts with a marker. */
  lemma PlaceholderListUnfold(n: nat)
    requires n >= 2
    ensures Join(Placeholders(n), Separator) == "%s, " + Join(Placeholders(n - 1), Separator)
    ensures Join(Placeholders(n - 1), Separator)[..2] == "%s"
  {
    assert Placeholders(n)[1..] == Placeholders(n - 1);
    if n - 1 > 1 {
      assert Placeholders(n - 1)[1..] == Placeholders(n - 2);
    }
  }

  /** Neither the separator nor the boundary around it adds a marker. */
  lemma MarkerCountAfterSeparator(rest: string)
    requires |rest| >= 2 && rest[..2] == "%s"
    ensures MarkerCount("%s, " + rest) == 1 + MarkerCount(rest)
  {
    var s3 := [' '] + rest;
    var s2 := [','] + s3;
    var s1 := ['s'] + s2;
    assert "%s, " + rest == ['%'] + s1;
    MarkerCountSkip(' ', rest);
    MarkerCountSkip(',', s3);
    MarkerCountSkip('s', s2);
    assert (['%'] + s1)[1..] == s1;
  }

  /** A character that does not start a marker adds none. */
  lemma MarkerCountSkip(c: char, t: string)
    requires c != '%'
    ensures MarkerCount([c] + t) == MarkerCount(t)
  {
    assert ([c] + t)[1..] == t;
  }

  /** Position of the first comma of `s`, or `|s|` when there is none. */
  function IndexOfComma(s: string): (i: nat)
    ensures i <= |s|
    ensures i < |s| ==> s[i] == ','
    ensures forall j :: 0 <= j < i ==> s[j] != ','
  {
    if s == [] || s[0] == ',' then 0 else 1 + IndexOfComma(s[1..])
  }

  /** Reads a column list back: cuts the text at each comma and drops the one
      character that follows the comma. */
  function SplitColumns(s: string): seq<string>
    decreases |s|
  {
    var i := IndexOfComma(s);
    if i == |s| then [s]
    else
      var rest := s[i + 1..];
      [s[..i]] + SplitColumns(if rest == [] then rest else rest[1..])
  }

  /** When no key contains a comma, the column list names exactly the record's
      keys, in order: reading it back gives the keys again. */
  lemma {:induction false} SplitJoinColumns(parts: seq<string>)
    requires |parts| >= 1
    requires forall k :: 0 <= k < |parts| ==> ',' !in parts[k]
    ensures SplitColumns(Join(parts, Separator)) == parts
  {
    if |parts| == 1 {
      assert IndexOfComma(parts[0]) == |parts[0]|;
    } else {
      var p, rest := parts[0], Join(parts[1..], Separator);
      var s := p + ", " + rest;
      assert Join(parts, Separator) == s;
      assert s[|p|] == ',';
      assert forall j :: 0 <= j < |p| ==> s[j] == p[j];
      assert IndexOfComma(s) == |p|;
      assert s[..|p|] == p;
      assert s[|p| + 1..][1..] == rest;
      SplitJoinColumns(parts[1..]);
    }
  }

  /** What the builder hands to `mogrify`: the table name, the record's columns
      in key order and one marker per column. */
  lemma TemplateArgsDescribeRecord(table: string, rec: Record)
    ensures |TemplateArgs(table, rec)| == 3
    ensures TemplateArgs(table, rec)[0] == table
    ensures rec == [] ==> TemplateArgs(table, rec) == [table, "", ""]
    ensures MarkerCount(TemplateArgs(table, rec)[2]) == |rec|
    ensures |rec| >= 1 && (forall k :: 0 <= k < |rec| ==> ',' !in rec[k].key)
            ==> SplitColumns(TemplateArgs(table, rec)[1]) == Keys(rec)
  {
    PlaceholderListHasOneMarkerPerColumn(|rec|);
    if |rec| >= 1 && (forall k :: 0 <= k < |rec| ==> ',' !in rec[k].key) {
      SplitJoinColumns(Keys(rec));
    }
  }
}
