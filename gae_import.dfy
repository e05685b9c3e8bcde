/**
 * bin/import_gaedb.py: loading the translations exported from the old App
 * Engine datastore. Each line of the export holds four tab-separated
 * columns: source language, target language, timestamp and the JSON data.
 * Every line is committed on its own; the table's unique hash (and its
 * primary key) make the database refuse a duplicate, which is rolled back.
 */
module GaeImport {
  import opened Wrappers
  import opened Text

  /** A row of the imported `translation` table; `data` is the parsed JSON value. */
  datatype LegacyTranslation<J> = LegacyTranslation(id: int, sourceLang: string, targetLang: string,
                                                    hash: string, data: J)

  /**
   * The library calls the import relies on: the date parser (with
   * `time.mktime`), `json.loads`, the SHA-1 hex digest, and `uuid64.issue`,
   * whose random part is drawn per line (the second argument is the line's
   * position).
   */
  datatype ImportServices<J> = ImportServices(
    parseTime: string -> Option<int>, parseJson: string -> Option<J>,
    sha1: string -> string, issueId: (int, nat) -> int)

  /** What one line gives: no row (wrong column count), an exception that ends the import, or a row. */
  datatype LineResult<J> = Skipped | Failed | Parsed(row: LegacyTranslation<J>)

  /** Lines 39-52 for the line at position `index`. */
  function ParseLine<J>(line: string, index: nat, p: ImportServices<J>): (r: LineResult<J>)
    ensures r.Skipped? <==> |Split(line, '\t')| != 4
    ensures r.Failed? <==>
              var cols := Split(line, '\t');
              |cols| == 4 && (p.parseTime(cols[2]).None? || p.parseJson(cols[3]).None?)
    ensures r.Parsed? ==>
              var cols := Split(line, '\t');
              && p.parseTime(cols[2]).Some? && p.parseJson(cols[3]) == Some(r.row.data)
              && r.row.id == p.issueId(p.parseTime(cols[2]).value, index)
              && r.row.sourceLang == Strip(cols[0], ByteStr) && r.row.targetLang == Strip(cols[1], ByteStr)
              && r.row.hash == p.sha1(Strip(cols[3], ByteStr))
  {
    var cols := Split(line, '\t');
    if |cols| != 4 then Skipped
    else
      match p.parseTime(cols[2])
      case None => Failed
      case Some(timestamp) =>
        match p.parseJson(cols[3])
        case None => Failed
        case Some(data) =>
          Parsed(LegacyTranslation(p.issueId(timestamp, index), Strip(cols[0], ByteStr), Strip(cols[1], ByteStr),
                                   p.sha1(Strip(cols[3], ByteStr)), data))
  }

  /** The database refuses a row whose hash or id is already stored. */
  predicate Clashes<J>(rows: seq<LegacyTranslation<J>>, row: LegacyTranslation<J>) {
    exists k :: 0 <= k < |rows| && (rows[k].hash == row.hash || rows[k].id == row.id)
  }

  /** `hash` is `unique=True` and `id` the primary key. */
  predicate UniqueKeys<J>(rows: seq<LegacyTranslation<J>>) {
    forall i, j :: 0 <= i < j < |rows| ==> rows[i].hash != rows[j].hash && rows[i].id != rows[j].id
  }

  /** What an import leaves in the table, and whether it read every line. */
  datatype ImportResult<J> = ImportResult(rows: seq<LegacyTranslation<J>>, completed: bool)

  /** The table after one line that did not raise: its row is added unless the database refuses it. */
  function Step<J>(rows: seq<LegacyTranslation<J>>, r: LineResult<J>): (after: seq<LegacyTranslation<J>>)
    ensures |rows| <= |after| && after[..|rows|] == rows
  {
    if r.Parsed? && !Clashes(rows, r.row) then rows + [r.row] else rows
  }

  /**
   * The specification of `import_data` (lines 34-60): the lines from position
   * `index` on, read into the table `rows`.
   */
  function ImportSpec<J>(rows: seq<LegacyTranslation<J>>, lines: seq<string>, index: nat, p: ImportServices<J>)
    : ImportResult<J>
    decreases |lines|
  {
    if lines == [] then ImportResult(rows, true)
    else
      var r := ParseLine(lines[0], index, p);
      if r.Failed? then ImportResult(rows, false)
      else ImportSpec(Step(rows, r), lines[1..], index + 1, p)
  }

  /** A line without exactly four columns adds no row. */
  lemma MalformedLineSkipped<J>(rows: seq<LegacyTranslation<J>>, line: string, rest: seq<string>, index: nat,
                                p: ImportServices<J>)
    requires |Split(line, '\t')| != 4
    ensures ImportSpec(rows, [line] + rest, index, p) == ImportSpec(rows, rest, index + 1, p)
  {
    assert ([line] + rest)[1..] == rest;
  }

  /** A row whose hash is already stored is rolled back: the table is as before the line. */
  lemma DuplicateDropped<J>(rows: seq<LegacyTranslation<J>>, line: string, rest: seq<string>, index: nat,
                            p: ImportServices<J>, k: nat)
    requires ParseLine(line, index, p).Parsed?
    requires k < |rows| && rows[k].hash == ParseLine(line, index, p).row.hash
    ensures ImportSpec(rows, [line] + rest, index, p) == ImportSpec(rows, rest, index + 1, p)
  {
    assert ([line] + rest)[1..] == rest;
  }

  /**
   * A parsed row whose hash and id are not stored is committed: it follows the
   * rows stored before its line, whatever the later lines do.
   */
  lemma NewRowStored<J>(rows: seq<LegacyTranslation<J>>, line: string, rest: seq<string>, index: nat,
                        p: ImportServices<J>)
    requires ParseLine(line, index, p).Parsed?
    requires !Clashes(rows, ParseLine(line, index, p).row)
    ensures var result := ImportSpec(rows, [line] + rest, index, p).rows;
            |rows| + 1 <= |result| && result[..|rows| + 1] == rows + [ParseLine(line, index, p).row]
  {
    var after := rows + [ParseLine(line, index, p).row];
    assert Step(rows, ParseLine(line, index, p)) == after;
    assert ([line] + rest)[1..] == rest;
    assert ImportSpec(rows, [line] + rest, index, p) == ImportSpec(after, rest, index + 1, p);
    ImportKeepsEarlierRows(after, rest, index + 1, p);
  }

  /** Where a line sits changes only the id of its row. */
  lemma ParseLineAt<J>(line: string, i: nat, j: nat, p: ImportServices<J>)
    ensures ParseLine(line, i, p).Skipped? == ParseLine(line, j, p).Skipped?
    ensures ParseLine(line, i, p).Failed? == ParseLine(line, j, p).Failed?
    ensures ParseLine(line, i, p).Parsed? ==> ParseLine(line, j, p).row.hash == ParseLine(line, i, p).row.hash
  {
  }

  /**
   * The same line read twice in a row stores at most one row: once the first
   * copy is stored, the second has its hash and is rolled back.
   */
  lemma RepeatedLineStoredOnce<J>(rows: seq<LegacyTranslation<J>>, line: string, index: nat, p: ImportServices<J>)
    ensures |ImportSpec(rows, [line, line], index, p).rows| <= |rows| + 1
    ensures ImportSpec(rows, [line], index, p).rows != rows ==>
              ImportSpec(rows, [line, line], index, p).rows == ImportSpec(rows, [line], index, p).rows
  {
    assert [line, line][1..] == [line] && [line][1..] == [];
    var first := ParseLine(line, index, p);
    var again := ParseLine(line, index + 1, p);
    ParseLineAt(line, index, index + 1, p);
    if !first.Failed? {
      var after := Step(rows, first);
      assert ImportSpec(rows, [line], index, p) == ImportResult(after, true);
      assert ImportSpec(rows, [line, line], index, p) == ImportSpec(after, [line], index + 1, p);
      assert ImportSpec(after, [line], index + 1, p) == ImportResult(Step(after, again), true) ;
      if after != rows {
        assert after[|rows|].hash == again.row.hash;
        assert Step(after, again) == after;
      }
    }
  }

  /** Each line is committed on its own: later lines never undo the rows stored before them. */
  lemma {:induction false} ImportKeepsEarlierRows<J>(rows: seq<LegacyTranslation<J>>, lines: seq<string>,
                                                     index: nat, p: ImportServices<J>)
    ensures var r := ImportSpec(rows, lines, index, p).rows;
            |rows| <= |r| && r[..|rows|] == rows
    decreases |lines|
  {
    if lines != [] && !ParseLine(lines[0], index, p).Failed? {
      var after := Step(rows, ParseLine(lines[0], index, p));
      assert ImportSpec(rows, lines, index, p) == ImportSpec(after, lines[1..], index + 1, p);
      ImportKeepsEarlierRows(after, lines[1..], index + 1, p);
      var result := ImportSpec(after, lines[1..], index + 1, p).rows;
      PrefixOfPrefix(result, after, rows);
    }
  }

  /** A prefix of a prefix is a prefix. */
  lemma PrefixOfPrefix<T>(c: seq<T>, b: seq<T>, a: seq<T>)
    requires |b| <= |c| && c[..|b|] == b
    requires |a| <= |b| && b[..|a|] == a
    ensures |a| <= |c| && c[..|a|] == a
  {
    assert c[..|a|] == c[..|b|][..|a|];
  }

  /** One accepted row keeps hashes and ids unique. */
  lemma StepKeepsUnique<J>(rows: seq<LegacyTranslation<J>>, r: LineResult<J>)
    requires UniqueKeys(rows)
    ensures UniqueKeys(Step(rows, r))
  {
    var after := Step(rows, r);
    if r.Parsed? && !Clashes(rows, r.row) {
      forall i, j | 0 <= i < j < |after| ensures after[i].hash != after[j].hash && after[i].id != after[j].id {
        assert after[i] == rows[i];
        if j < |rows| {
          assert after[j] == rows[j];
        }
      }
    }
  }

  /** The import keeps hashes and ids unique. */
  lemma {:induction false} ImportKeepsUnique<J>(rows: seq<LegacyTranslation<J>>, lines: seq<string>,
                                                index: nat, p: ImportServices<J>)
    requires UniqueKeys(rows)
    ensures UniqueKeys(ImportSpec(rows, lines, index, p).rows)
    decreases |lines|
  {
    if lines != [] {
      var r := ParseLine(lines[0], index, p);
      if !r.Failed? {
        StepKeepsUnique(rows, r);
        ImportKeepsUnique(Step(rows, r), lines[1..], index + 1, p);
      }
    }
  }

  /** The imported table, as the import script's database session sees it. */
  class LegacyStore<J> {
    var rows: seq<LegacyTranslation<J>>

    ghost predicate Valid()
      reads this
    {
      UniqueKeys(rows)
    }

    constructor ()
      ensures Valid() && rows == []
    {
      rows := [];
    }

    /**
     * `db.session.add(row)` and `db.session.commit()`, with the `IntegrityError`
     * of a duplicate rolled back.
     */
    method Add(row: LegacyTranslation<J>) returns (ok: bool)
      requires Valid()
      modifies this
      ensures Valid()
      ensures ok == !Clashes(old(rows), row)
      ensures rows == if ok then old(rows) + [row] else old(rows)
    {
      ok := true;
      var k := 0;
      while k < |rows|
        invariant 0 <= k <= |rows|
        invariant ok == !(exists m :: 0 <= m < k && (rows[m].hash == row.hash || rows[m].id == row.id))
      {
        if rows[k].hash == row.hash || rows[k].id == row.id {
          ok := false;
        }
        k := k + 1;
      }
      if ok {
        rows := rows + [row];
      }
    }

    /** `import_data`: reads the lines in order; `completed` is false when a parser raised. */
    method ImportData(lines: seq<string>, p: ImportServices<J>) returns (completed: bool)
      requires Valid()
      modifies this
      ensures Valid()
      ensures ImportResult(rows, completed) == ImportSpec(old(rows), lines, 0, p)
    {
      var i := 0;
      while i < |lines|
        invariant 0 <= i <= |lines|
        invariant Valid()
        invariant ImportSpec(old(rows), lines, 0, p) == ImportSpec(rows, lines[i..], i, p)
      {
        assert lines[i..][1..] == lines[i + 1..];
        var cols := Split(lines[i], '\t');
        if |cols| != 4 {
          // the line is written to stderr and skipped
          i := i + 1;
          continue;
        }
        var timestamp := p.parseTime(cols[2]);
        if timestamp.None? {
          return false;
        }
        var data := p.parseJson(cols[3]);
        if data.None? {
          return false;
        }
        var row := LegacyTranslation(p.issueId(timestamp.value, i), Strip(cols[0], ByteStr),
                                     Strip(cols[1], ByteStr), p.sha1(Strip(cols[3], ByteStr)), data.value);
        var _ := Add(row);
        i := i + 1;
      }
      return true;
    }
  }
}
