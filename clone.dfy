/**
 * The retrieval stage (adapter/wordcount/clone.go): ask the cloner for the
 * repository, then for its file names, keep the names ending in ".go" and read
 * each kept file into a `File` record.  The two goroutines and their channels
 * are one producer and one consumer each, so the channels are sequences here.
 */
module Clone {
  import opened Wrappers
  import opened Code

  /** What `Cloner.File(name)` returns: the bytes and the (nil-able) read error. */
  datatype FileRead = FileRead(raw: seq<Byte>, err: Option<Err>)

  /**
   * Go's `Cloner` interface, as the outcome of each of its calls: `Clone(url)`,
   * `Filenames()` and `File(name)`.
   */
  datatype Cloner = Cloner(
    clone: string -> Result<Repository>,
    filenames: Result<seq<string>>,
    file: string -> FileRead)

  /** A successful `Clone`: the repository and the stream of files, in order. */
  datatype Cloned = Cloned(repo: Repository, files: seq<File>)

  /** Go's `strings.HasSuffix`. */
  predicate HasSuffix(s: string, suffix: string)
  {
    |suffix| <= |s| && s[|s| - |suffix|..] == suffix
  }

  predicate IsGoFile(name: string)
  {
    HasSuffix(name, ".go")
  }

  /** The names the first goroutine sends on `namesc`. */
  function GoNames(names: seq<string>): seq<string>
  {
    if names == [] then []
    else
      var last := names[|names| - 1];
      GoNames(names[..|names| - 1]) + (if IsGoFile(last) then [last] else [])
  }

  /** The record the second goroutine builds for one name. */
  function ReadFile(cloner: Cloner, name: string): File
  {
    var read := cloner.file(name);
    File(name, read.raw, None, None, read.err)
  }

  function ReadAll(cloner: Cloner, names: seq<string>): seq<File>
  {
    seq(|names|, i requires 0 <= i < |names| => ReadFile(cloner, names[i]))
  }

  /** What `Clone(url, cloner)` returns: `(nil, nil, err)` on either cloner failure. */
  function Cloning(url: string, cloner: Cloner): Result<Cloned>
  {
    match cloner.clone(url)
    case Fail(err) => Fail(err)
    case Ok(repo) =>
      match cloner.filenames
      case Fail(err) => Fail(err)
      case Ok(names) => Ok(Cloned(repo, ReadAll(cloner, GoNames(names))))
  }

  method Clone(url: string, cloner: Cloner) returns (r: Result<Cloned>)
    ensures r == Cloning(url, cloner)
  {
    var repo := cloner.clone(url);
    if repo.Fail? {
      return Fail(repo.err);
    }
    var listing := cloner.filenames;
    if listing.Fail? {
      return Fail(listing.err);
    }
    var files := listing.value;

    // the filtering goroutine
    var namesc: seq<string> := [];
    for i := 0 to |files|
      invariant namesc == GoNames(files[..i])
    {
      assert files[..i + 1][..i] == files[..i];
      if !IsGoFile(files[i]) {
        continue;
      }
      namesc := namesc + [files[i]];
    }
    assert files[..|files|] == files;

    // the reading goroutine
    var filesc: seq<File> := [];
    for j := 0 to |namesc|
      invariant |filesc| == j
      invariant forall k :: 0 <= k < j ==> filesc[k] == ReadFile(cloner, namesc[k])
    {
      var raw := cloner.file(namesc[j]);
      var file := File(namesc[j], raw.raw, None, None, raw.err);
      filesc := filesc + [file];
    }
    assert filesc == ReadAll(cloner, namesc);
    return Ok(Cloned(repo.value, filesc));
  }

  /** Filtering distributes over concatenation: kept names keep their relative order. */
  lemma {:induction false} GoNamesAppend(a: seq<string>, b: seq<string>)
    ensures GoNames(a + b) == GoNames(a) + GoNames(b)
    decreases |b|
  {
    if b == [] {
      assert a + b == a;
    } else {
      var init := b[..|b| - 1];
      assert (a + b)[..|a + b| - 1] == a + init;
      GoNamesAppend(a, init);
    }
  }

  /**
   * Every ".go" name is kept as often as it occurs, every other name is dropped:
   * no drops, no extras, duplicates counted.
   */
  lemma {:induction false} GoNamesCounts(names: seq<string>)
    ensures forall x :: multiset(GoNames(names))[x] == if IsGoFile(x) then multiset(names)[x] else 0
    decreases |names|
  {
    if names != [] {
      var init := names[..|names| - 1];
      var last := names[|names| - 1];
      GoNamesCounts(init);
      assert names == init + [last];
    }
  }

  lemma GoNamesSound(names: seq<string>)
    ensures forall x :: x in GoNames(names) ==> IsGoFile(x) && x in names
  {
    GoNamesCounts(names);
    forall x | x in GoNames(names)
      ensures IsGoFile(x) && x in names
    {
      assert multiset(GoNames(names))[x] > 0;
    }
  }

  /** A list with no ".go" name sends nothing; dropping names is not an error. */
  lemma NoGoNames(names: seq<string>)
    requires forall x :: x in names ==> !IsGoFile(x)
    ensures GoNames(names) == []
  {
    GoNamesCounts(names);
    if GoNames(names) != [] {
      var x := GoNames(names)[0];
      assert multiset(GoNames(names))[x] > 0;
    }
  }

  lemma NamesOfReadAll(cloner: Cloner, names: seq<string>)
    ensures Names(ReadAll(cloner, names)) == names
  {
  }

  /** A failing `Clone` is returned as it is, and the listing and the files are never consulted. */
  lemma CloneFailureShortCircuits(url: string, cloner: Cloner, other: Cloner)
    requires cloner.clone(url).Fail?
    requires other.clone(url) == cloner.clone(url)
    ensures Cloning(url, cloner) == Fail(cloner.clone(url).err)
    ensures Cloning(url, other) == Cloning(url, cloner)
  {
  }

  /** A failing `Filenames` is returned as it is, and no file is read. */
  lemma ListingFailureShortCircuits(url: string, cloner: Cloner, other: Cloner)
    requires cloner.clone(url).Ok? && cloner.filenames.Fail?
    requires other.clone(url) == cloner.clone(url) && other.filenames == cloner.filenames
    ensures Cloning(url, cloner) == Fail(cloner.filenames.err)
    ensures Cloning(url, other) == Cloning(url, cloner)
  {
  }

  /**
   * On success: the repository is the cloner's, exactly the ".go" names come out
   * (with their multiplicities), and each record carries that name's bytes and
   * read error, with no tree and no file set yet.
   */
  lemma ClonedFiles(url: string, cloner: Cloner)
    requires cloner.clone(url).Ok? && cloner.filenames.Ok?
    ensures Cloning(url, cloner).Ok?
    ensures Cloning(url, cloner).value.repo == cloner.clone(url).value
    ensures forall x :: multiset(Names(Cloning(url, cloner).value.files))[x]
                       == if IsGoFile(x) then multiset(cloner.filenames.value)[x] else 0
    ensures forall f :: f in Cloning(url, cloner).value.files ==>
              && f.raw == cloner.file(f.name).raw
              && f.error == cloner.file(f.name).err
              && f.ast == None && f.fileSet == None
  {
    var kept := GoNames(cloner.filenames.value);
    NamesOfReadAll(cloner, kept);
    GoNamesCounts(cloner.filenames.value);
  }

  /**
   * A read error stays on its own record and stops nothing: the names that come
   * out do not depend on what `File` returns.
   */
  lemma ReadErrorsDoNotStopCloning(url: string, cloner: Cloner, other: Cloner)
    requires cloner.clone(url).Ok? && cloner.filenames.Ok?
    requires other.clone(url) == cloner.clone(url) && other.filenames == cloner.filenames
    ensures Cloning(url, other).Ok?
    ensures Names(Cloning(url, other).value.files) == Names(Cloning(url, cloner).value.files)
  {
    var kept := GoNames(cloner.filenames.value);
    NamesOfReadAll(cloner, kept);
    NamesOfReadAll(other, kept);
  }
}
