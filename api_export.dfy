/** The export side of the HTTP API: the path pattern of `getExportHandler`
    and the record limit and completeness flag of `handler_event_categ`. */
module ApiExport {
  import opened Text
  import opened Wrappers
  import opened ApiAuth

  // ---------------------------------------------------------------------
  // Words and id lists

  /** `\w+`, for byte strings: one or more ASCII letters, digits or `_`. */
  predicate IsWord(s: string) {
    |s| > 0 && forall i :: 0 <= i < |s| ==> IsWordChar(s[i])
  }

  /** The first position of `c` in `s`, or `|s|` when there is none. */
  function Find(s: string, c: char): (k: nat)
    ensures k <= |s| && (k < |s| ==> s[k] == c)
    ensures forall i :: 0 <= i < k ==> s[i] != c
  {
    if s == [] then 0 else if s[0] == c then 0 else 1 + Find(s[1..], c)
  }

  /** `s.split(sep)`: the pieces between the separators, empty ones included. */
  function Split(s: string, sep: char): (r: seq<string>)
    ensures |r| > 0
    decreases |s|
  {
    var k := Find(s, sep);
    if k == |s| then [s] else [s[..k]] + Split(s[k + 1..], sep)
  }

  /** `\w+(?:-\w+)*`: a word, then either the end or a hyphen and another
      such list. */
  predicate IsIdList(s: string)
    decreases |s|
  {
    var k := Find(s, '-');
    if k == |s| then IsWord(s) else IsWord(s[..k]) && IsIdList(s[k + 1..])
  }

  /** An id list is made of word characters and hyphens only. */
  lemma {:induction false} IdListChars(s: string)
    requires IsIdList(s)
    ensures |s| > 0 && IsWordChar(s[|s| - 1])
    ensures forall i :: 0 <= i < |s| ==> IsWordChar(s[i]) || s[i] == '-'
  {
    var k := Find(s, '-');
    if k < |s| {
      var tail := s[k + 1..];
      IdListChars(tail);
      assert s == s[..k] + "-" + tail;
      forall i | 0 <= i < |s|
        ensures IsWordChar(s[i]) || s[i] == '-'
      {
        if i < k {
          assert s[i] == s[..k][i];
        } else if i > k {
          assert s[i] == tail[i - k - 1];
        }
      }
    }
  }

  /** `sep.join(pieces)`. */
  function Join(pieces: seq<string>, sep: char): string {
    if |pieces| <= 1 then (if pieces == [] then "" else pieces[0])
    else pieces[0] + [sep] + Join(pieces[1..], sep)
  }

  /** Splitting loses nothing: the pieces joined back are the string, and no
      piece holds the separator. */
  lemma {:induction false} SplitJoin(s: string, sep: char)
    ensures Join(Split(s, sep), sep) == s
    ensures forall p :: p in Split(s, sep) ==> sep !in p
  {
    var k := Find(s, sep);
    if k < |s| {
      SplitJoin(s[k + 1..], sep);
      var rest := Split(s[k + 1..], sep);
      assert Split(s, sep) == [s[..k]] + rest;
      assert s == s[..k] + [sep] + s[k + 1..];
      assert Join(Split(s, sep), sep) == s[..k] + [sep] + Join(rest, sep);
    }
  }

  /** An id list is exactly a string whose hyphen-split pieces are all
      words: the handler is given only non-empty ids. */
  lemma {:induction false} IdListPieces(s: string)
    ensures IsIdList(s) <==> forall p :: p in Split(s, '-') ==> IsWord(p)
  {
    var k := Find(s, '-');
    if k == |s| {
      assert Split(s, '-') == [s];
    } else {
      IdListPieces(s[k + 1..]);
      assert Split(s, '-') == [s[..k]] + Split(s[k + 1..], '-');
    }
  }

  // ---------------------------------------------------------------------
  // getExportHandler

  /** The first group of the export pattern, `event|categ`. */
  datatype ExportType = Event | Categ

  function TypeName(t: ExportType): string {
    match t
    case Event => "event"
    case Categ => "categ"
  }

  /** What a matching path selects: the type, the id list and the format.
      There is a single handler, `handler_event_categ`, so it is not named. */
  datatype ExportMatch = ExportMatch(dtype: ExportType, idlist: string, format: string)

  /** The path that selects `m`. */
  function ExportPath(m: ExportMatch): string {
    "/export/" + TypeName(m.dtype) + "/" + m.idlist + "." + m.format
  }

  /** One trailing newline dropped: `$` also matches before it. */
  function StripNewline(s: string): string {
    if |s| > 0 && s[|s| - 1] == '\n' then s[..|s| - 1] else s
  }

  function TypeOf(name: string): Option<ExportType> {
    if name == "event" then Some(Event) else if name == "categ" then Some(Categ) else None
  }

  /** The part of the pattern after the type, `(\w+(?:-\w+)*)\.(\w+)`, on the
      whole of `body`. The id list holds no dot and the format holds none, so
      the dot that separates them is the first one. */
  function MatchBody(dtype: ExportType, body: string): Option<ExportMatch> {
    var k := Find(body, '.');
    if k == |body| || !IsIdList(body[..k]) || !IsWord(body[k + 1..]) then None
    else Some(ExportMatch(dtype, body[..k], body[k + 1..]))
  }

  /** `re.match` of `/export/(event|categ)/(\w+(?:-\w+)*)\.(\w+)$`, which is
      anchored at the start of the path. */
  function MatchPath(path: string): Option<ExportMatch> {
    if |path| < 14 || path[..8] != "/export/" || path[13] != '/' then None
    else match TypeOf(path[8..13])
      case None => None
      case Some(dtype) => MatchBody(dtype, StripNewline(path[14..]))
  }

  /** `getExportHandler(path)`: `None` stands for `(None, None, None)`, given
      when the path does not match or its format is not an allowed one. */
  function GetExportHandler(path: string, allowedFormats: set<string>): (r: Option<ExportMatch>)
    ensures r.None? <==> MatchPath(path).None? || MatchPath(path).value.format !in allowedFormats
    ensures r.Some? ==> r == MatchPath(path)
  {
    var m := MatchPath(path);
    if m.None? || m.value.format !in allowedFormats then None else m
  }

  /** A well-formed selection: what the pattern's groups can hold. */
  predicate WellFormed(m: ExportMatch) {
    IsIdList(m.idlist) && IsWord(m.format)
  }

  lemma NoDot(s: string)
    requires IsWord(s) || IsIdList(s)
    ensures '.' !in s && s[|s| - 1] != '\n'
  {
    if IsIdList(s) {
      IdListChars(s);
    }
    assert forall i :: 0 <= i < |s| ==> s[i] != '.';
  }

  lemma MatchBodySound(dtype: ExportType, body: string)
    requires MatchBody(dtype, body).Some?
    ensures var m := MatchBody(dtype, body).value;
      m.dtype == dtype && WellFormed(m) && body == m.idlist + "." + m.format
  {
    var k := Find(body, '.');
    assert body == body[..k] + "." + body[k + 1..];
  }

  lemma MatchBodyComplete(m: ExportMatch)
    requires WellFormed(m)
    ensures MatchBody(m.dtype, m.idlist + "." + m.format) == Some(m)
  {
    NoDot(m.idlist);
    var body := m.idlist + "." + m.format;
    assert body == m.idlist + ("." + m.format);
    FindAfter(m.idlist, "." + m.format, '.');
    assert body[..|m.idlist|] == m.idlist && body[|m.idlist| + 1..] == m.format;
  }

  /** `Find` skips a prefix that does not hold the character. */
  lemma {:induction false} FindAfter(a: string, b: string, c: char)
    requires c !in a && |b| > 0 && b[0] == c
    ensures Find(a + b, c) == |a|
  {
    if a == [] {
      assert a + b == b;
    } else {
      assert (a + b)[1..] == a[1..] + b;
      FindAfter(a[1..], b, c);
    }
  }

  /** The path of a selection splits into the prefix, the type name, a slash
      and the body. */
  lemma PathParts(m: ExportMatch, suffix: string)
    ensures var p := ExportPath(m) + suffix;
      && |p| >= 14 && p[..8] == "/export/" && p[13] == '/'
      && TypeOf(p[8..13]) == Some(m.dtype)
      && p[14..] == m.idlist + "." + m.format + suffix
  {
    var head, rest := "/export/" + TypeName(m.dtype) + "/", m.idlist + "." + m.format + suffix;
    assert |head| == 14;
    assert ExportPath(m) + suffix == head + rest;
    assert (head + rest)[..8] == head[..8] && (head + rest)[8..13] == head[8..13];
    assert (head + rest)[14..] == rest;
  }

  /** A path with the prefix, a type name and a slash matches as its body does. */
  lemma MatchPathOf(p: string, dtype: ExportType, rest: string)
    requires |p| >= 14 && p[..8] == "/export/" && p[13] == '/'
    requires TypeOf(p[8..13]) == Some(dtype) && p[14..] == rest
    ensures MatchPath(p) == MatchBody(dtype, StripNewline(rest))
  {
  }

  lemma TypeOfName(name: string)
    requires TypeOf(name).Some?
    ensures name == TypeName(TypeOf(name).value)
  {
  }

  lemma StripNewlineCases(s: string)
    ensures s == StripNewline(s) || s == StripNewline(s) + "\n"
  {
    if |s| > 0 && s[|s| - 1] == '\n' {
      assert s == s[..|s| - 1] + "\n";
    }
  }

  lemma PathSplit(path: string)
    requires |path| >= 14 && path[..8] == "/export/" && path[13] == '/'
    ensures path == "/export/" + path[8..13] + "/" + path[14..]
  {
    assert path == path[..8] + path[8..13] + path[13..14] + path[14..];
  }

  lemma ExportPathOf(m: ExportMatch)
    ensures ExportPath(m) == "/export/" + TypeName(m.dtype) + "/" + (m.idlist + "." + m.format)
  {
  }

  /** Only paths built from a well-formed selection match, perhaps followed by
      one newline. */
  lemma MatchSound(path: string)
    requires MatchPath(path).Some?
    ensures var m := MatchPath(path).value;
      WellFormed(m) && (path == ExportPath(m) || path == ExportPath(m) + "\n")
  {
    var m := MatchPath(path).value;
    var rest := path[14..];
    var body := StripNewline(rest);
    MatchBodySound(m.dtype, body);
    TypeOfName(path[8..13]);
    PathSplit(path);
    StripNewlineCases(rest);
    ExportPathOf(m);
    Assemble(path, "/export/" + TypeName(m.dtype) + "/", rest, body, ExportPath(m));
  }

  lemma Assemble(path: string, head: string, rest: string, body: string, built: string)
    requires path == head + rest && built == head + body
    requires rest == body || rest == body + "\n"
    ensures path == built || path == built + "\n"
  {
    if rest == body + "\n" {
      assert path == (head + body) + "\n";
    }
  }

  /** Every well-formed selection is matched by its path, with or without a
      trailing newline. */
  lemma MatchComplete(m: ExportMatch)
    requires WellFormed(m)
    ensures MatchPath(ExportPath(m)) == Some(m)
    ensures MatchPath(ExportPath(m) + "\n") == Some(m)
  {
    var body := m.idlist + "." + m.format;
    NoDot(m.format);
    MatchBodyComplete(m);
    PathParts(m, "");
    PathParts(m, "\n");
    var p := ExportPath(m);
    assert p + "" == p;
    assert body + "" == body;
    assert StripNewline(body) == body;
    assert StripNewline(body + "\n") == body;
    MatchPathOf(p, m.dtype, body);
    MatchPathOf(p + "\n", m.dtype, body + "\n");
  }

  /** A path whose format is not allowed selects no handler, whatever the rest. */
  lemma FormatNotAllowed(m: ExportMatch, allowedFormats: set<string>)
    requires WellFormed(m) && m.format !in allowedFormats
    ensures GetExportHandler(ExportPath(m), allowedFormats).None?
  {
    MatchComplete(m);
  }

  /** An allowed format on a well-formed path selects exactly its handler
      arguments. */
  lemma HandlerFound(m: ExportMatch, allowedFormats: set<string>)
    requires WellFormed(m) && m.format in allowedFormats
    ensures GetExportHandler(ExportPath(m), allowedFormats) == Some(m)
  {
    MatchComplete(m);
  }

  // ---------------------------------------------------------------------
  // handler_event_categ

  /** `MAX_RECORDS.get(detail, 10000)`. */
  function MaxRecords(detail: string): (n: int)
    ensures n > 0
  {
    if detail == "events" then 10000
    else if detail == "contributions" then 500
    else if detail == "subcontributions" then 500
    else if detail == "sessions" then 100
    else 10000
  }

  function LimitMessage(max: int, detail: string): string {
    "You can only request up to " + IntToString(max) + " records per request with the detail level '" + detail
  }

  /** The limit handed to the export: the user's, if positive and within the
      maximum for the detail level; the maximum if none is given; a
      bad-request error if the user asked for more. */
  function RecordLimit(detail: string, userLimit: int): Result<int, ApiError> {
    var max := MaxRecords(detail);
    if userLimit > max then Err(ApiError(LimitMessage(max, detail), HttpBadRequest))
    else Ok(if userLimit > 0 then userLimit else max)
  }

  /** What the export iterator yields: the records it produced before it
      stopped, and whether it stopped by raising `LimitExceededException`. */
  datatype ExportRun<T> = ExportRun(records: seq<T>, limitExceeded: bool)

  /** The export interface, `expInt.event(...)` or `expInt.category(...)`,
      given the type, the ids, the limit and the detail level. The time
      zone, offset and order it also receives are fixed within it. */
  type Fetch<T> = (ExportType, seq<string>, int, string) -> ExportRun<T>

  /** The records returned and whether they are all there are. */
  datatype Export<T> = Export(records: seq<T>, complete: bool)

  /** The value `handler_event_categ` returns, or the error it raises. */
  function ExportResult<T>(fetch: Fetch<T>, dtype: ExportType, idlist: string, detail: string,
                           userLimit: int): Result<Export<T>, ApiError> {
    match RecordLimit(detail, userLimit)
    case Err(e) => Err(e)
    case Ok(limit) =>
      var run := fetch(dtype, Split(idlist, '-'), limit, detail);
      Ok(Export(run.records, !run.limitExceeded || limit == userLimit))
  }

  /** `handler_event_categ(dbi, aw, qdata, dtype, idlist)`, with the detail
      level and the user's limit as read from the query. */
  method HandlerEventCateg<T>(fetch: Fetch<T>, dtype: ExportType, idlist: string, detail: string,
                              userLimit: int)
    returns (r: Result<Export<T>, ApiError>)
    ensures r == ExportResult(fetch, dtype, idlist, detail, userLimit)
  {
    var ids := Split(idlist, '-');
    var max := MaxRecords(detail);
    if userLimit > max {
      return Err(ApiError(LimitMessage(max, detail), HttpBadRequest));
    }
    var limit := if userLimit > 0 then userLimit else max;
    var run := fetch(dtype, ids, limit, detail);
    var resultList: seq<T> := [];
    var complete := true;
    for k := 0 to |run.records|
      invariant resultList == run.records[..k]
    {
      resultList := resultList + [run.records[k]];
    }
    if run.limitExceeded {
      complete := limit == userLimit;
    }
    assert resultList == run.records;
    return Ok(Export(resultList, complete));
  }

  /** The limit is refused exactly when it exceeds the maximum for the detail
      level, with a bad request; otherwise it is positive, never above the
      maximum, the user's own when positive and the maximum otherwise. */
  lemma RecordLimitMeaning(detail: string, userLimit: int)
    ensures RecordLimit(detail, userLimit).Err? <==> userLimit > MaxRecords(detail)
    ensures RecordLimit(detail, userLimit).Err? ==>
      RecordLimit(detail, userLimit).error == ApiError(LimitMessage(MaxRecords(detail), detail), 400)
    ensures RecordLimit(detail, userLimit).Ok? ==>
      var l := RecordLimit(detail, userLimit).value;
      && 0 < l <= MaxRecords(detail)
      && (userLimit > 0 ==> l == userLimit)
      && (userLimit <= 0 ==> l == MaxRecords(detail))
  {
  }

  lemma MaxRecordsValues()
    ensures MaxRecords("events") == 10000 && MaxRecords("contributions") == 500
    ensures MaxRecords("subcontributions") == 500 && MaxRecords("sessions") == 100
    ensures MaxRecords("attachments") == 10000 && MaxRecords("") == 10000
  {
  }

  /** The export returns every record the iterator produced, and reports it
      incomplete exactly when the iterator hit a limit the user did not ask
      for: the maximum imposed for want of a positive user limit. */
  lemma ExportMeaning<T>(fetch: Fetch<T>, dtype: ExportType, idlist: string, detail: string, userLimit: int)
    ensures ExportResult(fetch, dtype, idlist, detail, userLimit).Err? <==> userLimit > MaxRecords(detail)
    ensures ExportResult(fetch, dtype, idlist, detail, userLimit).Ok? ==>
      var e := ExportResult(fetch, dtype, idlist, detail, userLimit).value;
      var run := fetch(dtype, Split(idlist, '-'), RecordLimit(detail, userLimit).value, detail);
      && e.records == run.records
      && (e.complete <==> !run.limitExceeded || userLimit > 0)
  {
    RecordLimitMeaning(detail, userLimit);
  }

  /** Completeness in terms of the request alone: a positive limit within
      the maximum is handed to the export and the result is always complete;
      without a positive limit the maximum is handed over, and the result is
      incomplete exactly when the export hit it. */
  lemma CompletenessMeaning<T>(fetch: Fetch<T>, dtype: ExportType, idlist: string, detail: string, userLimit: int)
    ensures var r := ExportResult(fetch, dtype, idlist, detail, userLimit);
      (r.Ok? && !r.value.complete) <==>
        userLimit <= 0 && fetch(dtype, Split(idlist, '-'), MaxRecords(detail), detail).limitExceeded
    ensures 0 < userLimit <= MaxRecords(detail) ==>
      ExportResult(fetch, dtype, idlist, detail, userLimit)
        == Ok(Export(fetch(dtype, Split(idlist, '-'), userLimit, detail).records, true))
    ensures userLimit <= 0 ==>
      var run := fetch(dtype, Split(idlist, '-'), MaxRecords(detail), detail);
      ExportResult(fetch, dtype, idlist, detail, userLimit) == Ok(Export(run.records, !run.limitExceeded))
  {
    RecordLimitMeaning(detail, userLimit);
  }

  /** The ids of a matched export path reach the export as non-empty words
      that join back to the id list. */
  lemma MatchedIds(path: string)
    requires MatchPath(path).Some?
    ensures var ids := Split(MatchPath(path).value.idlist, '-');
      (forall p :: p in ids ==> IsWord(p)) && Join(ids, '-') == MatchPath(path).value.idlist
  {
    MatchSound(path);
    IdListPieces(MatchPath(path).value.idlist);
    SplitJoin(MatchPath(path).value.idlist, '-');
  }
}
