/** The result of a statistics tool call, from the service to the browser: the source is attached
    (`attach_source`), and the browser checks the whole result against the arguments of the
    call before it shows any of it (`parseStatisticsContent`). */
module StatisticsResults {
  import opened Options
  import opened FileStatistics
  import opened HexTexts

  datatype Source = Source(fileId: string, sha256: string, sizeBytes: int)

  datatype Payload = Payload(statistics: Statistics, source: Source, resultSha: string)

  predicate IsLowerHex(c: char) {
    '0' <= c <= '9' || 'a' <= c <= 'f'
  }

  /** What `str(uuid4())` gives and `STATISTICS_UUID` accepts. */
  predicate IsUuid(s: string) {
    |s| == 36 && forall k :: 0 <= k < 36 ==> if k in {8, 13, 18, 23} then s[k] == '-' else IsLowerHex(s[k])
  }

  predicate IsSha256(s: string) {
    |s| == 64 && forall k :: 0 <= k < 64 ==> IsLowerHex(s[k])
  }

  /** SHA-256 of the canonical text: some function into the hexadecimal digests. */
  ghost predicate IsDigest(digest: (Statistics, Source) -> string) {
    forall s, source :: IsSha256(digest(s, source))
  }

  function AttachSource(digest: (Statistics, Source) -> string, s: Statistics, source: Source): Payload {
    Payload(s, source, digest(s, source))
  }

  /** The whole schema; the fields with one admissible value are left out. */
  predicate AcceptsPayload(p: Payload) {
    && Accepts(p.statistics)
    && IsUuid(p.source.fileId) && IsSha256(p.source.sha256) && 1 <= p.source.sizeBytes <= MAX_BYTES
    && IsSha256(p.resultSha)
  }

  /** The arguments of the call as the message holds them. */
  datatype Args = Args(fileId: string, column: string)

  /** What the message with the result holds. */
  datatype Content = Refusal(code: string, text: string) | Success(payload: Payload) | Unreadable

  datatype View = Shown(data: Payload) | SourceGone | NotDone | Invalid

  /** `parseStatisticsContent`, for a call that has not been marked as failed. */
  function Parsed(content: Content, args: Args): View {
    match content
    case Refusal(code, text) =>
      if code == "" || text == "" then Invalid
      else if code in {"file_not_found", "managed_file_not_found"} then SourceGone
      else NotDone
    case Success(p) =>
      if AcceptsPayload(p) && IsUuid(args.fileId) && ValidName(args.column)
         && args.fileId == p.source.fileId && args.column == p.statistics.column
      then Shown(p)
      else Invalid
    case Unreadable => Invalid
  }

  /** The payload is shown under the call that names its file and column, and no other. */
  ghost predicate ShownOnlyTo(p: Payload, owner: Args) {
    forall args :: Parsed(Success(p), args) == (if args == owner then Shown(p) else Invalid)
  }

  lemma AttachedIsShown(digest: (Statistics, Source) -> string, s: Statistics, source: Source)
    requires IsDigest(digest) && Accepts(s)
    requires IsUuid(source.fileId) && IsSha256(source.sha256) && 1 <= source.sizeBytes <= MAX_BYTES
    ensures ShownOnlyTo(AttachSource(digest, s, source), Args(source.fileId, s.column))
  {
    var p := AttachSource(digest, s, source);
    assert AcceptsPayload(p);
    var owner := Args(source.fileId, s.column);
    forall args ensures Parsed(Success(p), args) == if args == owner then Shown(p) else Invalid { }
  }

  /** `file_statistics` after the stored bytes have been verified: what it returns is shown under
      exactly the call that asked for it. */
  method StatisticsOfFile(digest: (Statistics, Source) -> string, source: Source, csv: bool, names: seq<string>,
                          rows: seq<TableRow>, column: string)
    returns (r: Result<Payload, Error>)
    requires IsDigest(digest) && IsUuid(source.fileId) && IsSha256(source.sha256) && source.sizeBytes >= 1
    ensures r.Ok? <==> Calculable(source.sizeBytes, csv, names, rows, column)
    ensures r.Ok? ==> ShownOnlyTo(r.value, Args(source.fileId, column)) && r.value.source == source
    ensures r.Err? ==> FailsWith(r.error, source.sizeBytes, csv, names, rows, column)
  {
    if source.sizeBytes > MAX_BYTES {
      return Err(TableLimit);
    }
    var result := CalculateStatistics(source.sizeBytes, csv, names, rows, column);
    if result.Err? {
      return Err(result.error);
    }
    assert result.value.column == column;
    AttachedIsShown(digest, result.value, source);
    r := Ok(AttachSource(digest, result.value, source));
  }

  /** A file id is five groups of lower-case hexadecimal digits, a digest is 64 of them. */
  lemma IdsAreHex(s: string)
    ensures IsUuid(s) <==> IsGrouped(s, LowerHex)
    ensures IsSha256(s) <==> |s| == 64 && AllIn(s, LowerHex)
  {
    forall c ensures IsLowerHex(c) <==> c in LowerHex { LowerHexRanges(c); }
    if |s| == 36 { GroupedAt(s, LowerHex); }
  }

  /** A refusal shows no data, nor does anything that cannot be read; without a code or a text it is
      invalid, and it says that the source is gone exactly for the two codes of missing files. */
  lemma RefusalsAreTold(code: string, text: string, args: Args)
    ensures !Parsed(Refusal(code, text), args).Shown? && Parsed(Unreadable, args).Invalid?
    ensures Parsed(Refusal(code, text), args).Invalid? <==> code == "" || text == ""
    ensures Parsed(Refusal(code, text), args).SourceGone? <==>
              text != "" && (code == "file_not_found" || code == "managed_file_not_found")
  {
  }
}
