/** Validating a batch of uploads before anything is stored (`managed_file_service.py`). */
module UploadBatches {
  import opened Options

  newtype byte = x: int | 0 <= x < 256

  type Bytes = seq<byte>

  /** `suffixOf` is the lower-case suffix of a file name; `hash` is any injective digest. */
  datatype Env = Env(
    hash: Bytes -> string, suffixOf: string -> string, maxBytes: nat, batchCount: nat, batchBytes: nat,
    userCount: nat, userBytes: nat, retention: nat)

  ghost predicate Injective(hash: Bytes -> string) {
    forall x, y :: hash(x) == hash(y) ==> x == y
  }

  // ---- preparing a batch ----

  datatype Error =
    | CountExceeded | FileTooLarge | BatchTooLarge | DuplicateFile | InvalidContent | UnsupportedType | InvalidName
    | UnsafeFormula

  /** An upload: the verdict on its name and declared type, its bytes, and the verdict on
      its text once the bytes are known. */
  datatype Upload = Upload(name: Result<string, Error>, content: Bytes, text: Option<Error>)

  /** A validated file of a batch. */
  datatype Item = Item(name: string, content: Bytes)

  function Prepared(env: Env, upload: Upload): Result<Item, Error> {
    if upload.name.Err? then Err(upload.name.error)
    else if |upload.content| > env.maxBytes then Err(FileTooLarge)
    else if upload.content == [] then Err(InvalidContent)
    else if upload.text.Some? then Err(upload.text.value)
    else Ok(Item(upload.name.value, upload.content))
  }

  /** A file passes by itself exactly if its name and its text do and it has between one byte and the
      limit; and it keeps its name and its bytes. A bad name is reported first, and a bad text only
      of a file whose size is right. */
  lemma PreparedIff(env: Env, upload: Upload, item: Item)
    ensures Prepared(env, upload) == Ok(item) <==>
              upload.name == Ok(item.name) && upload.content == item.content && upload.text.None? && GoodItem(env, item)
    ensures upload.name.Err? ==> Prepared(env, upload) == Err(upload.name.error)
    ensures upload.name.Ok? && upload.text.Some? && GoodItem(env, Item(upload.name.value, upload.content)) ==>
              Prepared(env, upload) == Err(upload.text.value)
    ensures upload.name.Ok? && !GoodItem(env, Item(upload.name.value, upload.content)) ==>
              Prepared(env, upload) == Err(if upload.content == [] then InvalidContent else FileTooLarge)
  {
  }

  function Total(items: seq<Item>): nat {
    if items == [] then 0 else Total(items[..|items| - 1]) + |items[|items| - 1].content|
  }

  predicate DistinctHashes(env: Env, items: seq<Item>) {
    forall i, j :: 0 <= i < j < |items| ==> env.hash(items[i].content) != env.hash(items[j].content)
  }

  predicate GoodItem(env: Env, item: Item) {
    0 < |item.content| <= env.maxBytes
  }

  /** What a prepared batch is known to satisfy. */
  predicate GoodBatch(env: Env, items: seq<Item>) {
    && 0 < |items| <= env.batchCount && Total(items) <= env.batchBytes && DistinctHashes(env, items)
    && forall i :: 0 <= i < |items| ==> GoodItem(env, items[i])
  }

  /** No two places hold the same bytes. */
  ghost predicate NoTwins(items: seq<Item>) {
    forall i, j :: 0 <= i < |items| && 0 <= j < |items| && items[i].content == items[j].content ==> i == j
  }

  lemma NoTwinsIff(env: Env, items: seq<Item>)
    requires Injective(env.hash)
    ensures DistinctHashes(env, items) <==> NoTwins(items)
  {
    if NoTwins(items) {
      forall i, j | 0 <= i < j < |items| ensures env.hash(items[i].content) != env.hash(items[j].content) {
        assert items[i].content != items[j].content;
      }
    }
  }

  /** A good batch has an admissible number of files of admissible sizes, and no two files in it hold the
      same bytes. */
  lemma GoodBatchIff(env: Env, items: seq<Item>)
    requires Injective(env.hash)
    ensures GoodBatch(env, items) <==>
              && 1 <= |items| <= env.batchCount && Total(items) <= env.batchBytes && NoTwins(items)
              && forall i :: 0 <= i < |items| ==> 1 <= |items[i].content| <= env.maxBytes
  {
    NoTwinsIff(env, items);
  }

  ghost predicate PreparedAs(env: Env, uploads: seq<Upload>, items: seq<Item>) {
    |items| == |uploads| && forall i :: 0 <= i < |items| ==> Prepared(env, uploads[i]) == Ok(items[i])
  }

  /** Why the next upload of a batch is refused after these items, if it is. */
  function Refusal(env: Env, items: seq<Item>, upload: Upload): Option<Error> {
    match Prepared(env, upload)
    case Err(e) => Some(e)
    case Ok(item) => if Total(items) + |item.content| > env.batchBytes then Some(BatchTooLarge) else None
  }

  /** A file is refused after others for its own error, or for the total size of the batch, which counts
      only files without one. */
  lemma RefusalIsTold(env: Env, items: seq<Item>, upload: Upload, item: Item, error: Error)
    ensures Prepared(env, upload) == Err(error) ==> Refusal(env, items, upload) == Some(error)
    ensures Prepared(env, upload) == Ok(item) ==>
              (Refusal(env, items, upload).Some? <==> Total(items + [item]) > env.batchBytes)
              && (Refusal(env, items, upload).Some? ==> Refusal(env, items, upload).value == BatchTooLarge)
  {
    assert (items + [item])[..|items|] == items;
  }

  /** The k-th upload is the first that is refused, with this error. */
  ghost predicate FirstRefused(env: Env, uploads: seq<Upload>, k: nat, error: Error) {
    k < |uploads| && exists items :: PreparedAs(env, uploads[..k], items) && Total(items) <= env.batchBytes
                                     && Refusal(env, items, uploads[k]) == Some(error)
  }

  /** The items of the uploads so far, none of which was refused. */
  ghost predicate PreparedSoFar(env: Env, uploads: seq<Upload>, k: nat, items: seq<Item>) {
    k <= |uploads| && PreparedAs(env, uploads[..k], items) && Total(items) <= env.batchBytes
    && forall i :: 0 <= i < k ==> GoodItem(env, items[i])
  }

  lemma PreparedNext(env: Env, uploads: seq<Upload>, k: nat, items: seq<Item>)
    requires k < |uploads| && PreparedSoFar(env, uploads, k, items)
    ensures match Refusal(env, items, uploads[k])
      case Some(e) => FirstRefused(env, uploads, k, e) && NeverPrepared(env, uploads)
      case None => PreparedSoFar(env, uploads, k + 1, items + [Prepared(env, uploads[k]).value])
                   && var item := Prepared(env, uploads[k]).value;
                      Total(items + [item]) == Total(items) + |item.content|
  {
    if Prepared(env, uploads[k]).Ok? {
      var item := Prepared(env, uploads[k]).value;
      assert (items + [item])[..k] == items;
      if Refusal(env, items, uploads[k]).Some? { OverflowStays(env, uploads, k, items + [item]); }
    }
  }

  ghost predicate NeverPrepared(env: Env, uploads: seq<Upload>) {
    forall items :: PreparedAs(env, uploads, items) ==> !GoodBatch(env, items)
  }

  /** The first part of `upload_files`: a batch is prepared exactly if it has an admissible
      number of files, every file passes its own checks, the sizes add up to no more than the
      batch limit, and no two files have the same hash. */
  method PrepareBatch(env: Env, uploads: seq<Upload>) returns (r: Result<seq<Item>, Error>)
    ensures r.Ok? ==> PreparedAs(env, uploads, r.value) && GoodBatch(env, r.value)
    ensures r.Err? ==> NeverPrepared(env, uploads)
    ensures !(0 < |uploads| <= env.batchCount) ==> r == Err(CountExceeded)
    ensures r.Err? && 0 < |uploads| <= env.batchCount ==>
              || (exists k :: FirstRefused(env, uploads, k, r.error))
              || (r.error == DuplicateFile && exists items ::
                    PreparedAs(env, uploads, items) && Total(items) <= env.batchBytes && !DistinctHashes(env, items))
  {
    if |uploads| == 0 || |uploads| > env.batchCount {
      return Err(CountExceeded);
    }
    var items: seq<Item> := [];
    var bytes := 0;
    var k := 0;
    while k < |uploads|
      invariant PreparedSoFar(env, uploads, k, items) && bytes == Total(items)
    {
      PreparedNext(env, uploads, k, items);
      match Prepared(env, uploads[k]) {
        case Err(e) => return Err(e);
        case Ok(item) =>
          bytes := bytes + |item.content|;
          if bytes > env.batchBytes {
            return Err(BatchTooLarge);
          }
          items := items + [item];
          k := k + 1;
      }
    }
    assert uploads[..k] == uploads;
    if exists i, j :: 0 <= i < j < |items| && env.hash(items[i].content) == env.hash(items[j].content) {
      SamePreparation(env, uploads, items);
      return Err(DuplicateFile);
    }
    r := Ok(items);
  }

  lemma SamePreparation(env: Env, uploads: seq<Upload>, items: seq<Item>)
    requires PreparedAs(env, uploads, items)
    ensures forall other :: PreparedAs(env, uploads, other) ==> other == items
  {
  }

  lemma {:induction false} TotalOfPrefix(items: seq<Item>, n: nat)
    requires n <= |items|
    ensures Total(items[..n]) <= Total(items)
    decreases |items|
  {
    if n < |items| {
      TotalOfPrefix(items[..|items| - 1], n);
      assert items[..|items| - 1][..n] == items[..n];
    } else {
      assert items[..n] == items;
    }
  }

  lemma OverflowStays(env: Env, uploads: seq<Upload>, k: nat, head: seq<Item>)
    requires k < |uploads| && PreparedAs(env, uploads[..k + 1], head) && Total(head) > env.batchBytes
    ensures forall items :: PreparedAs(env, uploads, items) ==> Total(items) > env.batchBytes
  {
    forall items | PreparedAs(env, uploads, items) ensures Total(items) > env.batchBytes {
      assert items[..k + 1] == head;
      TotalOfPrefix(items, k + 1);
    }
  }
}
