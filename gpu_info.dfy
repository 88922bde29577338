/** The GPU tab: a first tier that reads the `nvidia-smi` CSV line, a
    fallback tier that scans the `xrandr` listing for connected displays,
    and a placeholder row when both fail. The table is not cleared between
    tiers, so whatever a tier appended before it failed stays on screen.
    The outputs of the two commands are inputs here: `None` stands for a
    command that could not be run, exited with an error or did not decode. */
module GpuInfo {
  import opened Wrappers
  import opened PyStr
  import opened Table

  /** What one `try` block left on the table: the rows it appended, and
      whether it ran to its end (`false`: its command failed, or it raised
      part-way, after appending `rows`). */
  datatype Attempt = Attempt(rows: seq<Row>, completed: bool)

  /** Running `a`, and `b` after it only if `a` ran to its end. */
  function Then(a: Attempt, b: Attempt): Attempt {
    if a.completed then Attempt(a.rows + b.rows, b.completed) else a
  }

  lemma ThenAssociative(a: Attempt, b: Attempt, c: Attempt)
    ensures Then(Then(a, b), c) == Then(a, Then(b, c))
  {
    if a.completed && b.completed {
      assert (a.rows + b.rows) + c.rows == a.rows + (b.rows + c.rows);
    }
  }

  const NvidiaHeader := "== NVIDIA GPU Information =="
  const DisplayHeader := "== Display Information =="
  const DegreesCelsius := "\U{B0}C"

  /** The placeholder row shown when neither command gave a complete answer. */
  const NotAvailable := StyledRow("GPU Information", "Not available")

  // ---------------------------------------------------------------------
  // First tier: nvidia-smi

  /** `gpu_info.strip().split(',')` */
  function NvidiaFields(output: string): (fields: seq<string>)
    ensures |fields| >= 1
  {
    Split(Strip(output), ',')
  }

  /** The label of the row for field `i` of the query
      `name,temperature.gpu,memory.total,memory.used,memory.free,utilization.gpu`. */
  function FieldLabel(i: nat): string
    requires i < 6
  {
    if i == 0 then "GPU Model"
    else if i == 1 then "Temperature"
    else if i == 2 then "Total Memory"
    else if i == 3 then "Used Memory"
    else if i == 4 then "Free Memory"
    else "GPU Utilization"
  }

  /** The value shown for field `i`: the model name as it is, the
      temperature stripped and followed by "°C", the others stripped. */
  function FieldValue(fields: seq<string>, i: nat): string
    requires i < |fields|
  {
    if i == 0 then fields[0]
    else if i == 1 then Strip(fields[1]) + DegreesCelsius
    else Strip(fields[i])
  }

  /** The row for field `i`. */
  function FieldRow(fields: seq<string>, i: nat): Row
    requires i < |fields| && i < 6
  {
    StyledRow(FieldLabel(i), FieldValue(fields, i))
  }

  /** The rows for the first `n` fields. Field `i` is read by `gpu_data[i]`,
      which raises when there are only `i` fields, so the first tier appends
      `FieldRows(fields, n)` with `n` the smaller of `|fields|` and 6. */
  function FieldRows(fields: seq<string>, n: nat): (rows: seq<Row>)
    requires n <= |fields| && n <= 6
    ensures |rows| == n
  {
    if n == 0 then [] else FieldRows(fields, n - 1) + [FieldRow(fields, n - 1)]
  }

  /** How many fields the first tier reads before it stops. */
  function FieldsRead(fields: seq<string>): nat {
    if |fields| < 6 then |fields| else 6
  }

  /** The first tier run on the command's output: the header, then the
      field rows; it runs to its end when all six fields are there. */
  function NvidiaAttempt(output: string): Attempt {
    var fields := NvidiaFields(output);
    Attempt([StyledRow(NvidiaHeader, "")] + FieldRows(fields, FieldsRead(fields)), |fields| >= 6)
  }

  /** Row `i` of the first `n` field rows is the row for field `i`. */
  lemma {:induction false} FieldRowsAt(fields: seq<string>, n: nat, i: nat)
    requires n <= |fields| && n <= 6 && i < n
    ensures FieldRows(fields, n)[i] == FieldRow(fields, i)
  {
    assert FieldRows(fields, n) == FieldRows(fields, n - 1) + [FieldRow(fields, n - 1)];
    if i < n - 1 {
      FieldRowsAt(fields, n - 1, i);
    }
  }

  /** The header followed by the first `n` field rows: row `i + 1` is the
      row for field `i`. */
  lemma {:induction false} HeaderThenFieldRows(fields: seq<string>, n: nat)
    requires n <= |fields| && n <= 6
    ensures var rows := [StyledRow(NvidiaHeader, "")] + FieldRows(fields, n);
      |rows| == 1 + n && rows[0] == StyledRow(NvidiaHeader, "") &&
      forall i :: 0 <= i < n ==> rows[i + 1] == FieldRow(fields, i)
  {
    var rows := [StyledRow(NvidiaHeader, "")] + FieldRows(fields, n);
    forall i | 0 <= i < n
      ensures rows[i + 1] == FieldRow(fields, i)
    {
      FieldRowsAt(fields, n, i);
    }
  }

  /** The rows of the first tier: the header, then one row per field read,
      with the field's label and value, and nothing else. */
  lemma NvidiaRowsAre(output: string)
    ensures |NvidiaAttempt(output).rows| == 1 + FieldsRead(NvidiaFields(output))
    ensures NvidiaAttempt(output).rows[0] == StyledRow(NvidiaHeader, "")
    ensures forall i :: 0 <= i < FieldsRead(NvidiaFields(output)) ==>
      NvidiaAttempt(output).rows[i + 1] == FieldRow(NvidiaFields(output), i)
  {
    var f := NvidiaFields(output);
    HeaderThenFieldRows(f, FieldsRead(f));
  }

  /** On success the GPU table gets exactly seven rows, in this order. */
  lemma NvidiaSuccessRows(output: string)
    requires |NvidiaFields(output)| >= 6
    ensures var f, rows := NvidiaFields(output), NvidiaAttempt(output).rows;
      NvidiaAttempt(output).completed && |rows| == 7 &&
      rows[0] == StyledRow("== NVIDIA GPU Information ==", "") &&
      rows[1] == StyledRow("GPU Model", f[0]) &&
      rows[2] == StyledRow("Temperature", Strip(f[1]) + "\U{B0}C") &&
      rows[3] == StyledRow("Total Memory", Strip(f[2])) &&
      rows[4] == StyledRow("Used Memory", Strip(f[3])) &&
      rows[5] == StyledRow("Free Memory", Strip(f[4])) &&
      rows[6] == StyledRow("GPU Utilization", Strip(f[5]))
  {
    var f, rows := NvidiaFields(output), NvidiaAttempt(output).rows;
    NvidiaRowsAre(output);
    assert rows[1] == FieldRow(f, 0) && rows[2] == FieldRow(f, 1) && rows[3] == FieldRow(f, 2);
    assert rows[4] == FieldRow(f, 3) && rows[5] == FieldRow(f, 4) && rows[6] == FieldRow(f, 5);
  }

  /** No field row is the placeholder row. */
  lemma {:induction false} FieldRowsNotPlaceholder(fields: seq<string>, n: nat)
    requires n <= |fields| && n <= 6
    ensures NotAvailable !in FieldRows(fields, n)
  {
    if n > 0 {
      FieldRowsNotPlaceholder(fields, n - 1);
    }
  }

  /** A seventh field and any after it are never read: two outputs whose
      first six fields agree give the same rows. */
  lemma {:induction false} FieldRowsPrefix(f: seq<string>, g: seq<string>, n: nat)
    requires n <= |f| && n <= |g| && n <= 6 && f[..n] == g[..n]
    ensures FieldRows(f, n) == FieldRows(g, n)
  {
    if n > 0 {
      assert f[..n - 1] == f[..n][..n - 1] && g[..n - 1] == g[..n][..n - 1];
      assert f[n - 1] == f[..n][n - 1] && g[n - 1] == g[..n][n - 1];
      FieldRowsPrefix(f, g, n - 1);
    }
  }

  lemma ExtraFieldsIgnored(a: string, b: string)
    requires |NvidiaFields(a)| >= 6 && |NvidiaFields(b)| >= 6
    requires NvidiaFields(a)[..6] == NvidiaFields(b)[..6]
    ensures NvidiaAttempt(a) == NvidiaAttempt(b)
  {
    FieldRowsPrefix(NvidiaFields(a), NvidiaFields(b), 6);
  }

  /** The first tier completes exactly when the stripped output has at
      least five commas. */
  lemma NvidiaCompletesIffFiveCommas(output: string)
    ensures NvidiaAttempt(output).completed <==> multiset(Strip(output))[','] >= 5
  {
    SplitLength(Strip(output), ',');
  }

  /** Where the first tier stands after the statements for the first `k`
      fields, below the rows `start` it began with: all `k` rows are there
      if none of those statements raised, and otherwise the rows of the
      fields there were. */
  ghost predicate Step(rows: seq<Row>, start: seq<Row>, gpuData: seq<string>, k: nat, read: bool)
    requires k <= 6
  {
    if read then k <= |gpuData| && rows == start + FieldRows(gpuData, k)
    else |gpuData| < k && rows == start + FieldRows(gpuData, |gpuData|)
  }

  /** The `add_info_to_table` statement of the first tier for field `i`
      (1 to 5), with that field's label and value: reading `gpu_data[i]`
      raises when there are only `i` fields, and then nothing is added. */
  method AddField(table: InfoTable, gpuData: seq<string>, i: nat, ghost start: seq<Row>) returns (read: bool)
    requires table.Valid() && 1 <= i < 6
    requires Step(table.rows, start, gpuData, i, true)
    modifies table
    ensures table.Valid()
    ensures Step(table.rows, start, gpuData, i + 1, read)
  {
    if i >= |gpuData| {
      return false;
    }
    table.AddInfo(FieldLabel(i), FieldValue(gpuData, i));
    AppendAssociative(start, FieldRows(gpuData, i), [FieldRow(gpuData, i)]);
    return true;
  }

  /** Appends the first tier's rows for the output of `nvidia-smi`; the
      result says whether all six fields were there. */
  method AddNvidiaRows(table: InfoTable, output: string) returns (completed: bool)
    requires table.Valid()
    modifies table
    ensures table.Valid()
    ensures table.rows == old(table.rows) + NvidiaAttempt(output).rows
    ensures completed == NvidiaAttempt(output).completed
  {
    var gpuInfo := Strip(output);
    var gpuData := Split(gpuInfo, ',');
    ghost var start := table.rows + [StyledRow(NvidiaHeader, "")];
    table.AddInfo(NvidiaHeader, "");
    table.AddInfo("GPU Model", gpuData[0]);
    completed := AddField(table, gpuData, 1, start);
    if completed {
      completed := AddField(table, gpuData, 2, start);
    }
    if completed {
      completed := AddField(table, gpuData, 3, start);
    }
    if completed {
      completed := AddField(table, gpuData, 4, start);
    }
    if completed {
      completed := AddField(table, gpuData, 5, start);
    }
    AppendAssociative(old(table.rows), [StyledRow(NvidiaHeader, "")], FieldRows(gpuData, FieldsRead(gpuData)));
  }

  // ---------------------------------------------------------------------
  // Fallback tier: xrandr

  /** `' connected ' in line`: the spaces on both sides keep lines about
      "disconnected" outputs from matching. */
  predicate IsConnectedLine(line: string) {
    Contains(line, " connected ")
  }

  /** A matching line always has a first word, so `line.split()[0]` never
      raises. */
  lemma ConnectedLineHasWord(line: string)
    requires IsConnectedLine(line)
    ensures SplitWhitespace(line) != []
  {
    ContainsOccurs(line, " connected ");
    SplitWhitespaceSpec(line);
    var i: nat :| OccursAt(line, " connected ", i);
    assert line[i + 1] == line[i..i + 11][1] == 'c';
  }

  /** The body of the loop over the lines, `line.split()[2]` included: a
      connected line adds a "Display" row with word 0, then a "Resolution"
      row with word 2, and raises between the two when there is no word 2. */
  function LineAttempt(line: string): Attempt {
    if !IsConnectedLine(line) then Attempt([], true)
    else
      ConnectedLineHasWord(line);
      var words := SplitWhitespace(line);
      var display := StyledRow("Display", words[0]);
      if |words| < 3 then Attempt([display], false)
      else Attempt([display, StyledRow("Resolution", words[2])], true)
  }

  /** One step of the loop: a line without " connected " adds nothing; a
      connected line first adds its "Display" row with its first word, then
      either its "Resolution" row with its third word, or, when it has no
      third word, nothing more, and the loop raises. */
  lemma LineAttemptRows(line: string)
    ensures !IsConnectedLine(line) ==> LineAttempt(line) == Attempt([], true)
    ensures IsConnectedLine(line) ==>
      var words, a := SplitWhitespace(line), LineAttempt(line);
      |words| >= 1 && |a.rows| >= 1 && a.rows[0] == StyledRow("Display", words[0]) &&
      (a.completed <==> |words| >= 3) &&
      (|words| >= 3 ==> a.rows == [a.rows[0], StyledRow("Resolution", words[2])]) &&
      (|words| < 3 ==> a.rows == [a.rows[0]])
  {
    if IsConnectedLine(line) {
      ConnectedLineHasWord(line);
    }
  }

  /** Where the mode geometry stands among the words of a connected line:
      right after "connected", one further on when `xrandr` marks the
      output as "primary" there. */
  function ResolutionIndex(words: seq<string>): (k: nat)
    ensures k == 2 || k == 3
  {
    if |words| > 2 && words[2] == "primary" then 3 else 2
  }

  /** The line step as evidently intended: the resolution is the mode
      geometry, after the word "primary" when there is one. It still adds
      the "Display" row first and raises when the resolution word is
      missing. */
  function LineAttemptCorrected(line: string): Attempt {
    if !IsConnectedLine(line) then Attempt([], true)
    else
      ConnectedLineHasWord(line);
      var words := SplitWhitespace(line);
      var display := StyledRow("Display", words[0]);
      var k := ResolutionIndex(words);
      if |words| <= k then Attempt([display], false)
      else Attempt([display, StyledRow("Resolution", words[k])], true)
  }

  /** The written and the corrected line steps differ only on lines whose
      third word is "primary". */
  lemma CorrectedAgreesUnlessPrimary(line: string)
    requires var words := SplitWhitespace(line); |words| < 3 || words[2] != "primary"
    ensures LineAttemptCorrected(line) == LineAttempt(line)
  {
  }

  /** A connected line as `xrandr` prints it: the output name, "connected",
      optionally "primary", the mode geometry, then further words. */
  function ConnectedWords(name: string, primary: bool, geometry: string, rest: seq<string>): seq<string> {
    [name, "connected"] + ((if primary then ["primary"] else []) + [geometry] + rest)
  }

  function ConnectedLine(name: string, primary: bool, geometry: string, rest: seq<string>): string {
    Join(ConnectedWords(name, primary, geometry, rest), ' ')
  }

  /** Words of a line: non-empty and free of whitespace. */
  predicate AreWords(words: seq<string>) {
    forall w <- words :: w != [] && NoSpace(w)
  }

  lemma AreWordsAppend(a: seq<string>, b: seq<string>)
    requires AreWords(a) && AreWords(b)
    ensures AreWords(a + b)
  {
    assert forall w <- a + b :: w in a || w in b;
  }

  /** The words of a connected line are words. */
  lemma ConnectedWordsAreWords(name: string, primary: bool, geometry: string, rest: seq<string>)
    requires AreWords([name, geometry] + rest)
    ensures AreWords(ConnectedWords(name, primary, geometry, rest))
  {
    var given := [name, geometry] + rest;
    var tail := (if primary then ["primary"] else []) + [geometry] + rest;
    assert AreWords([name]) && AreWords([geometry]) && AreWords(rest) by {
      assert name == given[0] && geometry == given[1];
      assert forall w <- rest :: w in given;
    }
    assert AreWords(["connected"]) && AreWords(["primary"]);
    AreWordsAppend([name], ["connected"]);
    AreWordsAppend(if primary then ["primary"] else [], [geometry]);
    AreWordsAppend((if primary then ["primary"] else []) + [geometry], rest);
    AreWordsAppend([name, "connected"], tail);
  }

  /** `ConnectedLine` is matched by `' connected ' in line`, and `split()`
      gives its words back. */
  lemma ConnectedLineWords(name: string, primary: bool, geometry: string, rest: seq<string>)
    requires AreWords([name, geometry] + rest)
    ensures IsConnectedLine(ConnectedLine(name, primary, geometry, rest))
    ensures SplitWhitespace(ConnectedLine(name, primary, geometry, rest)) == ConnectedWords(name, primary, geometry, rest)
  {
    var words := ConnectedWords(name, primary, geometry, rest);
    ConnectedWordsAreWords(name, primary, geometry, rest);
    SplitWhitespaceJoin(words);
    ConnectedLineMarked(words);
  }

  /** Words joined by spaces, the second of three or more being
      "connected", have " connected " right after the first word. */
  lemma ConnectedLineMarked(words: seq<string>)
    requires |words| >= 3 && words[1] == "connected"
    ensures IsConnectedLine(Join(words, ' '))
  {
    var name := words[0];
    var line := Join(words, ' ');
    var j := Join(words[2..], ' ');
    assert words[1..][1..] == words[2..];
    var after := Join(words[1..], ' ');
    assert after == "connected" + [' '] + j;
    assert line == name + [' '] + after;
    AppendAssociative(name, [' '], "connected" + [' '] + j);
    AppendAssociative([' '], "connected" + [' '], j);
    assert [' '] + ("connected" + [' ']) == " connected ";
    assert line == name + (" connected " + j);
    assert line[|name|..][..11] == " connected ";
    assert OccursAt(line, " connected ", |name|);
    ContainsOccurs(line, " connected ");
  }

  /** An occurrence of " connected " starts with a space, so it cannot
      start inside a word at the start of the line. */
  lemma NoOccurrenceInWord(s: string, w: string, k: nat)
    requires |w| <= |s| && s[..|w|] == w && NoSpace(w) && k < |w|
    ensures !OccursAt(s, " connected ", k)
  {
    assert s[k] == w[k];
  }

  /** Words joined by spaces start with the first word, followed by a space
      when there are more words, or by nothing at all. */
  lemma JoinFirstWord(words: seq<string>)
    requires words != []
    ensures var j, w := Join(words, ' '), words[0];
      |w| <= |j| && j[..|w|] == w &&
      (|words| == 1 ==> j == w) && (|words| >= 2 ==> |w| < |j| && j[|w|] == ' ')
  {
    if |words| >= 2 {
      var j, w := Join(words, ' '), words[0];
      assert j == w + ([' '] + Join(words[1..], ' '));
    }
  }

  /** Words joined by spaces that begin with "connected " begin with the
      word "connected", and it is not the last word. */
  lemma JoinStartsConnected(words: seq<string>)
    requires AreWords(words) && words != []
    requires var j := Join(words, ' '); |j| >= 10 && j[..10] == "connected "
    ensures |words| >= 2 && words[0] == "connected"
  {
    var j := Join(words, ' ');
    assert words[0] in words;
    JoinFirstWord(words);
    assert j[9] == ' ';
    assert forall m :: 0 <= m < 9 ==> !IsSpace(j[m]);
    assert j[..9] == "connected";
  }

  /** The converse of `ConnectedLineMarked`: words joined by spaces contain
      " connected " at index `k` only when a word other than the first and
      the last is "connected". */
  lemma {:induction false} ConnectedWordAt(words: seq<string>, k: nat)
    requires AreWords(words) && words != []
    requires OccursAt(Join(words, ' '), " connected ", k)
    ensures exists i :: 0 < i < |words| - 1 && words[i] == "connected"
    decreases |words|
  {
    var line := Join(words, ' ');
    var w := words[0];
    assert w in words;
    if |words| == 1 {
      NoOccurrenceInWord(line, w, k);
      assert false;
    }
    var tail := Join(words[1..], ' ');
    assert line == w + ([' '] + tail);
    assert AreWords(words[1..]) by {
      assert forall v <- words[1..] :: v in words;
    }
    if k < |w| {
      NoOccurrenceInWord(line, w, k);
      assert false;
    } else if k == |w| {
      assert line[k + 1..k + 11] == tail[..10];
      assert line[k + 1..k + 11] == line[k..k + 11][1..];
      JoinStartsConnected(words[1..]);
      assert words[1] == "connected";
    } else {
      var k' := k - |w| - 1;
      assert line[k..k + 11] == tail[k'..k' + 11];
      ConnectedWordAt(words[1..], k');
      var i :| 0 < i < |words[1..]| - 1 && words[1..][i] == "connected";
      assert words[i + 1] == "connected";
    }
  }

  /** A line of words passes `' connected ' in line` only when one of its
      words, neither the first nor the last, is "connected". */
  lemma ConnectedLineHasConnectedWord(words: seq<string>)
    requires AreWords(words) && IsConnectedLine(Join(words, ' '))
    ensures exists i :: 0 < i < |words| - 1 && words[i] == "connected"
  {
    var line := Join(words, ' ');
    ContainsOccurs(line, " connected ");
    var k: nat :| OccursAt(line, " connected ", k);
    if words == [] {
      assert false;
    }
    ConnectedWordAt(words, k);
  }

  /** The spaces around " connected " keep lines about disconnected outputs
      out of the loop: such a line adds no row. */
  lemma DisconnectedLineSkipped(name: string, rest: seq<string>)
    requires AreWords([name] + rest) && "connected" !in rest
    ensures !IsConnectedLine(Join([name, "disconnected"] + rest, ' '))
    ensures LineAttempt(Join([name, "disconnected"] + rest, ' ')) == Attempt([], true)
  {
    var words := [name, "disconnected"] + rest;
    assert AreWords([name]) && AreWords(rest) by {
      assert name == ([name] + rest)[0];
      assert forall w <- rest :: w in [name] + rest;
    }
    assert AreWords(["disconnected"]) by {
      var d := "disconnected";
      assert forall k :: 0 <= k < |d| ==> 'a' <= d[k] <= 'z';
    }
    AreWordsAppend([name], ["disconnected"]);
    AreWordsAppend([name, "disconnected"], rest);
    forall i | 0 < i < |words| - 1
      ensures words[i] != "connected"
    {
      if i >= 2 {
        assert words[i] == rest[i - 2];
      }
    }
    if IsConnectedLine(Join(words, ' ')) {
      ConnectedLineHasConnectedWord(words);
      assert false;
    }
  }

  /** The discrepancy: on the line of the primary output the step as written
      shows the word "primary" as the resolution. */
  lemma PrimaryLineAsWritten(name: string, geometry: string, rest: seq<string>)
    requires AreWords([name, geometry] + rest)
    ensures LineAttempt(ConnectedLine(name, true, geometry, rest)) ==
      Attempt([StyledRow("Display", name), StyledRow("Resolution", "primary")], true)
  {
    ConnectedLineWords(name, true, geometry, rest);
  }

  /** The corrected step shows the mode geometry on every connected line,
      whether or not the output is the primary one. */
  lemma PrimaryLineCorrected(name: string, primary: bool, geometry: string, rest: seq<string>)
    requires AreWords([name, geometry] + rest) && geometry != "primary"
    ensures LineAttemptCorrected(ConnectedLine(name, primary, geometry, rest)) ==
      Attempt([StyledRow("Display", name), StyledRow("Resolution", geometry)], true)
  {
    ConnectedLineWords(name, primary, geometry, rest);
  }

  /** The loop over the lines: each line's step in order, stopping at the
      first step that raises. */
  function ScanLines(lines: seq<string>): Attempt
    decreases |lines|
  {
    if lines == [] then Attempt([], true)
    else Then(LineAttempt(lines[0]), ScanLines(lines[1..]))
  }

  /** The fallback tier run on the command's output: the header, then the
      scan of its lines (`display_info.split('\n')`). */
  function XrandrAttempt(output: string): Attempt {
    Then(Attempt([StyledRow(DisplayHeader, "")], true), ScanLines(Split(output, '\n')))
  }

  /** Scanning two blocks of lines is scanning the first, then the second
      if the first ran to its end. */
  lemma {:induction false} ScanLinesAppend(p: seq<string>, q: seq<string>)
    ensures ScanLines(p + q) == Then(ScanLines(p), ScanLines(q))
    decreases |p|
  {
    if p == [] {
      assert [] + q == q;
    } else {
      assert (p + q)[1..] == p[1..] + q;
      ScanLinesAppend(p[1..], q);
      ThenAssociative(LineAttempt(p[0]), ScanLines(p[1..]), ScanLines(q));
    }
  }

  /** The scan only ever appends "Display" and "Resolution" rows. */
  lemma {:induction false} ScanLinesLabels(lines: seq<string>)
    ensures forall r <- ScanLines(lines).rows :: r.info == "Display" || r.info == "Resolution"
    decreases |lines|
  {
    if lines != [] {
      ScanLinesLabels(lines[1..]);
    }
  }

  /** Lines without " connected " add nothing and never fail. */
  lemma {:induction false} ScanLinesNoneConnected(lines: seq<string>)
    requires forall l <- lines :: !IsConnectedLine(l)
    ensures ScanLines(lines) == Attempt([], true)
    decreases |lines|
  {
    if lines != [] {
      assert forall l <- lines[1..] :: l in lines;
      ScanLinesNoneConnected(lines[1..]);
    }
  }

  /** Scanning one more line after a scan of the lines before it that ran
      to its end. */
  lemma ScanLinesSnoc(lines: seq<string>, i: nat)
    requires i < |lines| && ScanLines(lines[..i]).completed
    ensures ScanLines(lines[..i + 1]).rows == ScanLines(lines[..i]).rows + LineAttempt(lines[i]).rows
    ensures ScanLines(lines[..i + 1]).completed == LineAttempt(lines[i]).completed
  {
    assert lines[..i + 1] == lines[..i] + [lines[i]];
    ScanLinesAppend(lines[..i], [lines[i]]);
  }

  /** Once a line's step raises, the lines after it make no difference. */
  lemma ScanLinesStops(lines: seq<string>, i: nat)
    requires i <= |lines| && !ScanLines(lines[..i]).completed
    ensures ScanLines(lines) == ScanLines(lines[..i])
  {
    assert lines == lines[..i] + lines[i..];
    ScanLinesAppend(lines[..i], lines[i..]);
  }

  /** The body of the loop over the lines, for one line. */
  method AddLineRows(table: InfoTable, line: string) returns (completed: bool)
    requires table.Valid()
    modifies table
    ensures table.Valid()
    ensures table.rows == old(table.rows) + LineAttempt(line).rows
    ensures completed == LineAttempt(line).completed
  {
    if Contains(line, " connected ") {
      ConnectedLineHasWord(line);
      var words := SplitWhitespace(line);
      table.AddInfo("Display", words[0]);
      if |words| < 3 {
        return false;
      }
      table.AddInfo("Resolution", words[2]);
    }
    return true;
  }

  /** Appends the fallback tier's rows for the output of `xrandr`; the
      result says whether every connected line had its resolution word. */
  method AddXrandrRows(table: InfoTable, output: string) returns (completed: bool)
    requires table.Valid()
    modifies table
    ensures table.Valid()
    ensures table.rows == old(table.rows) + XrandrAttempt(output).rows
    ensures completed == XrandrAttempt(output).completed
  {
    ghost var start := table.rows + [StyledRow(DisplayHeader, "")];
    table.AddInfo(DisplayHeader, "");
    var lines := Split(output, '\n');
    AppendAssociative(old(table.rows), [StyledRow(DisplayHeader, "")], ScanLines(lines).rows);
    for i := 0 to |lines|
      invariant table.Valid()
      invariant ScanLines(lines[..i]).completed
      invariant table.rows == start + ScanLines(lines[..i]).rows
    {
      ScanLinesSnoc(lines, i);
      AppendAssociative(start, ScanLines(lines[..i]).rows, LineAttempt(lines[i]).rows);
      var ok := AddLineRows(table, lines[i]);
      if !ok {
        ScanLinesStops(lines, i + 1);
        return false;
      }
    }
    assert lines[..|lines|] == lines;
    return true;
  }

  // ---------------------------------------------------------------------
  // The whole tab

  /** The first tier for a command result. */
  function Tier1(smi: Option<string>): Attempt {
    match smi
    case None => Attempt([], false)
    case Some(output) => NvidiaAttempt(output)
  }

  /** The fallback tier for a command result. */
  function Tier2(xrandr: Option<string>): Attempt {
    match xrandr
    case None => Attempt([], false)
    case Some(output) => XrandrAttempt(output)
  }

  /** What the `except` branch appends: the fallback tier's rows, and the
      placeholder row if the fallback tier did not run to its end. */
  function FallbackRows(xrandr: Option<string>): seq<Row> {
    var t2 := Tier2(xrandr);
    t2.rows + if t2.completed then [] else [NotAvailable]
  }

  /** The GPU table after `update_gpu_info`. */
  function GpuRows(smi: Option<string>, xrandr: Option<string>): seq<Row> {
    var t1 := Tier1(smi);
    if t1.completed then t1.rows else t1.rows + FallbackRows(xrandr)
  }

  /** The placeholder row is shown exactly when both tiers fail, and then
      it is the last row. */
  lemma NotAvailableIffBothTiersFail(smi: Option<string>, xrandr: Option<string>)
    ensures NotAvailable in GpuRows(smi, xrandr) <==> !Tier1(smi).completed && !Tier2(xrandr).completed
    ensures NotAvailable in GpuRows(smi, xrandr) ==> GpuRows(smi, xrandr)[|GpuRows(smi, xrandr)| - 1] == NotAvailable
  {
    var t1, t2 := Tier1(smi), Tier2(xrandr);
    assert NotAvailable !in t1.rows by {
      if smi.Some? {
        var f := NvidiaFields(smi.value);
        FieldRowsNotPlaceholder(f, FieldsRead(f));
      }
    }
    assert NotAvailable !in t2.rows by {
      if xrandr.Some? {
        ScanLinesLabels(Split(xrandr.value, '\n'));
      }
    }
  }

  /** The fallback tier is consulted only when the first tier fails: once
      `nvidia-smi` gives six fields, the `xrandr` output makes no difference. */
  lemma FallbackOnlyAfterFailure(smi: Option<string>, x1: Option<string>, x2: Option<string>)
    requires Tier1(smi).completed
    ensures GpuRows(smi, x1) == GpuRows(smi, x2) == Tier1(smi).rows
  {
  }

  /** When `nvidia-smi` answers with fewer than six fields, its header and
      "GPU Model" row (and any further fields it had) stay on screen, and the
      fallback tier's rows follow them. */
  lemma NvidiaLeftoversStay(output: string, xrandr: Option<string>)
    requires |NvidiaFields(output)| < 6
    ensures var rows, n := GpuRows(Some(output), xrandr), |NvidiaFields(output)| + 1;
      |rows| >= n && rows[..n] == NvidiaAttempt(output).rows && rows[n..] == FallbackRows(xrandr)
    ensures var rows := GpuRows(Some(output), xrandr);
      rows[0] == StyledRow(NvidiaHeader, "") &&
      rows[1] == StyledRow("GPU Model", NvidiaFields(output)[0])
  {
    var f := NvidiaFields(output);
    var t1 := NvidiaAttempt(output);
    NvidiaRowsAre(output);
    assert FieldRow(f, 0) == StyledRow("GPU Model", f[0]);
    var rows := GpuRows(Some(output), xrandr);
    assert rows == t1.rows + FallbackRows(xrandr);
    assert rows[0] == t1.rows[0] && rows[1] == t1.rows[1];
  }

  /** When the first connected line without a third word is line `i` of
      the `xrandr` listing, the loop raises after that line's "Display" row,
      which stays on screen, followed by the placeholder row. */
  lemma DisplayRowBeforePlaceholder(smi: Option<string>, output: string, i: nat)
    requires !Tier1(smi).completed
    requires var lines := Split(output, '\n');
      i < |lines| && ScanLines(lines[..i]).completed &&
      IsConnectedLine(lines[i]) && |SplitWhitespace(lines[i])| < 3
    ensures var lines := Split(output, '\n');
      |SplitWhitespace(lines[i])| >= 1 &&
      GpuRows(smi, Some(output)) == Tier1(smi).rows + [StyledRow(DisplayHeader, "")] +
        ScanLines(lines[..i]).rows + [StyledRow("Display", SplitWhitespace(lines[i])[0]), NotAvailable]
  {
    var lines := Split(output, '\n');
    var before := ScanLines(lines[..i]).rows;
    LineAttemptRows(lines[i]);
    var display := StyledRow("Display", SplitWhitespace(lines[i])[0]);
    assert LineAttempt(lines[i]) == Attempt([display], false);
    ScanLinesSnoc(lines, i);
    ScanLinesStops(lines, i + 1);
    assert ScanLines(lines) == Attempt(before + [display], false);
    assert FallbackRows(Some(output)) == [StyledRow(DisplayHeader, "")] + (before + [display]) + [NotAvailable];
    AppendAssociative(Tier1(smi).rows, [StyledRow(DisplayHeader, "")] + (before + [display]), [NotAvailable]);
    AppendAssociative(Tier1(smi).rows + [StyledRow(DisplayHeader, "")], before, [display]);
    AppendAssociative([StyledRow(DisplayHeader, "")], before, [display]);
    AppendAssociative(Tier1(smi).rows, [StyledRow(DisplayHeader, "")], before + [display]);
    assert [display] + [NotAvailable] == [display, NotAvailable];
    AppendAssociative(Tier1(smi).rows + [StyledRow(DisplayHeader, "")] + before, [display], [NotAvailable]);
  }

  /** When the first tier did not complete and the `xrandr` listing has no
      connected line, the display header follows whatever the first tier
      left and is the last row: no placeholder row is added. */
  lemma NoConnectedDisplay(smi: Option<string>, output: string)
    requires !Tier1(smi).completed
    requires forall l <- Split(output, '\n') :: !IsConnectedLine(l)
    ensures GpuRows(smi, Some(output)) == Tier1(smi).rows + [StyledRow(DisplayHeader, "")]
  {
    ScanLinesNoneConnected(Split(output, '\n'));
  }

  /** With neither command available, the placeholder row is all there is. */
  lemma NothingAvailable()
    ensures GpuRows(None, None) == [NotAvailable]
  {
  }
}
