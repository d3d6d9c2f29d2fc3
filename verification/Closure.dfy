/** The audit of bundled skills against the repositories they come from: a bundle must
    hold exactly the files its entry leads to, each with the digest on record. */
module Closure {
  import opened Collections

  type Path = string
  type Bytes = string
  type Digest = string
  type Source = string

  /** What the audit takes from outside: the files at a pinned commit, a digest, and
      the local files a text refers to (None when the bytes are not text). */
  datatype Upstream = Upstream(
    content: (Source, Path) -> Option<Bytes>, sha: Bytes -> Digest, references: (Bytes, Path) -> Option<set<Path>>)
  {
    /** The file is there, is text, and has this digest. */
    predicate Good(source: Source, path: Path, digest: Digest) {
      && content(source, path).Some? && sha(content(source, path).value) == digest
      && references(content(source, path).value, path).Some?
    }

    function Refs(source: Source, path: Path): set<Path> {
      if content(source, path).None? || references(content(source, path).value, path).None? then {}
      else references(content(source, path).value, path).value
    }
  }

  type Manifest = map<Path, Digest>

  /** A set of files that holds the entry and whatever its files refer to. */
  ghost predicate Closed(u: Upstream, source: Source, entry: Path, s: set<Path>) {
    entry in s && forall p :: p in s ==> u.Refs(source, p) <= s
  }

  /** The least such set. */
  ghost predicate LeastClosed(u: Upstream, source: Source, entry: Path, s: set<Path>) {
    Closed(u, source, entry, s) && forall other: set<Path> :: Closed(u, source, entry, other) ==> s <= other
  }

  ghost predicate GoodBundle(u: Upstream, source: Source, entry: Path, files: Manifest) {
    LeastClosed(u, source, entry, files.Keys) && forall p :: p in files ==> u.Good(source, p, files[p])
  }

  // ---------------------------------------------------------------- fetching

  /** Fetched files are kept, so that none is asked for twice. */
  class Cache {
    const u: Upstream
    var kept: map<(Source, Path), Bytes>
    ghost var requests: seq<(Source, Path)>

    ghost predicate Valid()
      reads this
    {
      && (forall k :: k in kept ==> u.content(k.0, k.1) == Some(kept[k]))
      && (forall k :: k in requests ==> k in kept || u.content(k.0, k.1).None?)
    }

    constructor (u: Upstream)
      ensures Valid() && this.u == u && requests == []
    {
      this.u, kept, requests := u, map[], [];
    }

    /** None when the file cannot be had, which ends the audit. */
    method Fetch(source: Source, path: Path) returns (body: Option<Bytes>)
      requires Valid()
      modifies this
      ensures Valid() && body == u.content(source, path)
      ensures requests == old(requests) + if (source, path) in old(kept) then [] else [(source, path)]
      ensures (source, path) in kept || body.None?
      ensures forall k :: k in kept <==> k in old(kept) || (k == (source, path) && body.Some?)
    {
      if (source, path) in kept {
        return Some(kept[(source, path)]);
      }
      body := u.content(source, path);
      requests := requests + [(source, path)];
      if body.Some? {
        kept := kept[(source, path) := body.value];
      }
    }
  }

  // ---------------------------------------------------------------- the worklist

  /** Appends a set in some order. */
  method Extend(todo: seq<Path>, more: set<Path>) returns (todo': seq<Path>)
    ensures forall p :: p in todo' <==> p in todo || p in more
  {
    todo' := todo;
    var left := more;
    while left != {}
      invariant left <= more
      invariant forall p :: p in todo' <==> p in todo || p in more - left
      decreases |left|
    {
      var p :| p in left;
      todo' := todo' + [p];
      left := left - {p};
    }
  }

  /** What the loop keeps: everything found is good and in the manifest; the set found
      is closed but for what is still to do; and no closed set leaves any of it out. */
  ghost predicate Going(u: Upstream, source: Source, entry: Path, files: Manifest, found: set<Path>, todo: seq<Path>) {
    && found <= files.Keys && (entry in found || entry in todo)
    && (forall p :: p in found ==> u.Good(source, p, files[p]))
    && (forall p, q :: p in found && q in u.Refs(source, p) ==> q in found || q in todo)
    && forall s: set<Path> :: Closed(u, source, entry, s) ==> found <= s && forall p :: p in todo ==> p in s
  }

  lemma AcceptedIsLeast(u: Upstream, source: Source, entry: Path, files: Manifest, found: set<Path>)
    requires Going(u, source, entry, files, found, [])
    ensures LeastClosed(u, source, entry, found)
    ensures found == files.Keys <==> GoodBundle(u, source, entry, files)
  {
  }

  /** A file that is still to do is in every closed set: it must be listed and good. */
  lemma MustBeGood(u: Upstream, source: Source, entry: Path, files: Manifest, found: set<Path>, todo: seq<Path>,
    path: Path)
    requires Going(u, source, entry, files, found, todo) && path in todo
    ensures GoodBundle(u, source, entry, files) ==> path in files && u.Good(source, path, files[path])
  {
  }

  lemma AlreadyFound(u: Upstream, source: Source, entry: Path, files: Manifest, found: set<Path>, todo: seq<Path>)
    requires todo != [] && Going(u, source, entry, files, found, todo) && todo[|todo| - 1] in found
    ensures Going(u, source, entry, files, found, todo[..|todo| - 1])
  {
    assert todo == todo[..|todo| - 1] + [todo[|todo| - 1]];
  }

  lemma OneMoreFound(u: Upstream, source: Source, entry: Path, files: Manifest, found: set<Path>, todo: seq<Path>,
    todo': seq<Path>)
    requires todo != [] && Going(u, source, entry, files, found, todo)
    requires var path := todo[|todo| - 1];
      && path in files && u.Good(source, path, files[path])
      && forall p :: p in todo' <==> p in todo[..|todo| - 1] || p in u.Refs(source, path) - (found + {path})
    ensures Going(u, source, entry, files, found + {todo[|todo| - 1]}, todo')
  {
    var path := todo[|todo| - 1];
    assert todo == todo[..|todo| - 1] + [path];
    forall s: set<Path> | Closed(u, source, entry, s)
      ensures found + {path} <= s && forall p :: p in todo' ==> p in s
    {
      assert path in todo && path in s;
    }
  }

  /** Takes the last file of the worklist; false refuses the bundle. */
  method VerifyNext(cache: Cache, source: Source, entry: Path, files: Manifest, found: set<Path>, todo: seq<Path>)
    returns (found': set<Path>, todo': seq<Path>, good: bool)
    requires cache.Valid() && todo != [] && Going(cache.u, source, entry, files, found, todo)
    modifies cache
    ensures cache.Valid() && (!good ==> !GoodBundle(cache.u, source, entry, files))
    ensures good ==> Going(cache.u, source, entry, files, found', todo')
    ensures good ==> (found' == found && |todo'| < |todo|) || (found < found' <= files.Keys)
  {
    var path := todo[|todo| - 1];
    found', todo', good := found, todo[..|todo| - 1], true;
    if path in found {
      AlreadyFound(cache.u, source, entry, files, found, todo);
    } else {
      MustBeGood(cache.u, source, entry, files, found, todo, path);
      good := path in files;
      if good {
        var body := cache.Fetch(source, path);
        good := body.Some? && cache.u.sha(body.value) == files[path] && cache.u.references(body.value, path).Some?;
        if good {
          found' := found + {path};
          todo' := Extend(todo', cache.u.references(body.value, path).value - found');
          OneMoreFound(cache.u, source, entry, files, found, todo, todo');
        }
      }
    }
  }

  /** Accepts a bundle exactly when its files are the least set that holds the entry
      and whatever they refer to, and every one of them is as recorded. */
  method VerifyBundle(cache: Cache, source: Source, entry: Path, files: Manifest) returns (accepted: bool)
    requires cache.Valid()
    modifies cache
    ensures cache.Valid() && accepted == GoodBundle(cache.u, source, entry, files)
  {
    var found: set<Path>, todo, good := {}, [entry], true;
    while todo != [] && good
      invariant cache.Valid() && (good ==> Going(cache.u, source, entry, files, found, todo))
      invariant !good ==> !GoodBundle(cache.u, source, entry, files)
      decreases good, |files.Keys - found|, |todo|
    {
      ghost var before := found;
      found, todo, good := VerifyNext(cache, source, entry, files, found, todo);
      if good && before < found {
        Shrinks(files.Keys, before, found);
      }
    }
    if good {
      AcceptedIsLeast(cache.u, source, entry, files, found);
    }
    accepted := good && found == files.Keys;
  }

  lemma Shrinks(all: set<Path>, before: set<Path>, found: set<Path>)
    requires before < found <= all
    ensures |all - found| < |all - before|
  {
    var p :| p in found && p !in before;
    Fewer(all - found, (all - before) - {p});
  }

  // ---------------------------------------------------------------- the audit

  /** A candidate: its entry and licence with their digests, and its bundle when the
      audit of its references is closed. */
  datatype Candidate = Candidate(
    source: Source, entry: Path, entrySha: Digest, license: Path, licenseSha: Digest, bundle: Option<Manifest>)

  predicate Recorded(u: Upstream, source: Source, path: Path, digest: Digest) {
    u.content(source, path).Some? && u.sha(u.content(source, path).value) == digest
  }

  ghost predicate GoodCandidate(u: Upstream, c: Candidate) {
    && Recorded(u, c.source, c.entry, c.entrySha) && Recorded(u, c.source, c.license, c.licenseSha)
    && (c.bundle.Some? ==> GoodBundle(u, c.source, c.entry, c.bundle.value))
  }

  method VerifyRecorded(cache: Cache, source: Source, path: Path, digest: Digest) returns (good: bool)
    requires cache.Valid()
    modifies cache
    ensures cache.Valid() && good == Recorded(cache.u, source, path, digest)
  {
    var body := cache.Fetch(source, path);
    good := body.Some? && cache.u.sha(body.value) == digest;
  }

  method VerifyUpstream(u: Upstream, candidates: seq<Candidate>) returns (accepted: bool)
    ensures accepted <==> forall i :: 0 <= i < |candidates| ==> GoodCandidate(u, candidates[i])
  {
    var cache := new Cache(u);
    accepted := true;
    var n := 0;
    while n < |candidates| && accepted
      invariant cache.Valid() && cache.u == u && 0 <= n <= |candidates|
      invariant accepted ==> forall i :: 0 <= i < n ==> GoodCandidate(u, candidates[i])
      invariant !accepted ==> exists i :: 0 <= i < n && !GoodCandidate(u, candidates[i])
    {
      var c := candidates[n];
      accepted := VerifyRecorded(cache, c.source, c.entry, c.entrySha);
      if accepted {
        accepted := VerifyRecorded(cache, c.source, c.license, c.licenseSha);
      }
      if accepted && c.bundle.Some? {
        accepted := VerifyBundle(cache, c.source, c.entry, c.bundle.value);
      }
      n := n + 1;
    }
  }
}
