/**
 A file system seen by code that must survive being stopped: every operation can fail, and
 every state the files have been in is on record.
 */
module FileSystem {
  import opened Options

  type Files = map<string, string>

  function ContentOf(files: Files, path: string): Option<string> {
    if path in files then Some(files[path]) else None
  }

  /** In every state from the k-th on, `path` is untouched or holds exactly `body`, and
      the latter only if `body` passed its check. */
  ghost predicate AllOrNothing(history: seq<Files>, k: nat, path: string, before: Option<string>, body: string,
                               passed: set<string>) {
    forall i :: k <= i < |history| ==>
      ContentOf(history[i], path) == before || (ContentOf(history[i], path) == Some(body) && body in passed)
  }

  ghost predicate Untouched(history: seq<Files>, k: nat, path: string, before: Option<string>) {
    forall i :: k <= i < |history| ==> ContentOf(history[i], path) == before
  }

  /** A file system whose operations can fail, and whose every change is recorded. */
  class Disk {
    var files: Files
    ghost var history: seq<Files>   // the state after each change so far, oldest first
    ghost var passed: set<string>    // contents a check has accepted
    ghost var refused: seq<string>   // contents a check has not accepted
    ghost var faults: nat            // operations that have failed

    ghost predicate Valid()
      reads this
    {
      history != [] && history[|history| - 1] == files
    }

    constructor (files: Files)
      ensures Valid() && this.files == files && passed == {} && refused == [] && faults == 0
    {
      this.files := files;
      history := [files];
      passed, refused, faults := {}, [], 0;
    }

    twostate predicate Extends()
      reads this
    {
      Valid() && old(history) <= history && old(passed) <= passed && old(refused) <= refused && old(faults) <= faults
    }

    /** Why something may not have been done: an operation failed, or the content was refused. */
    twostate predicate Hindered(content: string)
      reads this
    {
      faults > old(faults) || refused == old(refused) + [content]
    }

    method Put(path: string, data: string) returns (ok: bool)
      requires Valid()
      modifies this`files, this`history, this`faults
      ensures Extends()
      ensures ok ==> files == old(files)[path := data] && history == old(history) + [files]
      ensures !ok ==> files == old(files) && history == old(history)
      ensures ok <==> faults == old(faults)
    {
      ok := *;
      if ok {
        files := files[path := data];
        history := history + [files];
      } else {
        faults := faults + 1;
      }
    }

    /** fsync and close. */
    method Settle() returns (ok: bool)
      requires Valid()
      modifies this`faults
      ensures Extends()
      ensures ok <==> faults == old(faults)
    {
      ok := *;
      if !ok {
        faults := faults + 1;
      }
    }

    method Rename(from: string, to: string) returns (ok: bool)
      requires Valid() && from in files
      modifies this`files, this`history, this`faults
      ensures Extends()
      ensures ok ==> files == old(files)[to := old(files)[from]] - (if from == to then {} else {from})
      ensures ok ==> history == old(history) + [files]
      ensures !ok ==> files == old(files) && history == old(history)
      ensures ok <==> faults == old(faults)
    {
      ok := *;
      if ok {
        files := files[to := files[from]] - (if from == to then {} else {from});
        history := history + [files];
      } else {
        faults := faults + 1;
      }
    }

    method Remove(path: string)
      requires Valid()
      modifies this`files, this`history, this`faults
      ensures Extends()
      ensures files == (if faults == old(faults) then old(files) - {path} else old(files))
      ensures history == old(history) || history == old(history) + [files]
      ensures forall other :: other != path ==> ContentOf(files, other) == ContentOf(old(files), other)
    {
      if * {
        files := files - {path};
        history := history + [files];
      } else {
        faults := faults + 1;
      }
    }

    /** Runs the check on a file; it reads that file and changes none. */
    method Check(path: string) returns (ok: bool)
      requires Valid() && path in files
      modifies this`passed, this`refused
      ensures Extends()
      ensures passed == if ok then old(passed) + {files[path]} else old(passed)
      ensures refused == if ok then old(refused) else old(refused) + [files[path]]
    {
      ok := *;
      if ok {
        passed := passed + {files[path]};
      } else {
        refused := refused + [files[path]];
      }
    }

    /** Creates or truncates the file, then writes it piece by piece: any prefix can be
        on disk when the machine stops. */
    method WriteFileSynced(path: string, data: string) returns (ok: bool)
      requires Valid()
      modifies this`files, this`history, this`faults
      ensures Extends()
      ensures ok ==> files == old(files)[path := data]
      ensures ok <==> faults == old(faults)
      ensures forall other :: other != path ==> ContentOf(files, other) == ContentOf(old(files), other)
      ensures forall other :: other != path ==> Untouched(history, |old(history)|, other, ContentOf(old(files), other))
    {
      ok := Put(path, "");
      if !ok { return; }
      var written := 0;
      while written < |data|
        invariant Extends() && faults == old(faults)
        invariant 0 <= written <= |data|
        invariant files == old(files)[path := data[..written]]
        invariant forall other :: other != path ==>
                  Untouched(history, |old(history)|, other, ContentOf(old(files), other))
      {
        var next :| written < next <= |data|;
        ok := Put(path, data[..next]);
        if !ok { return; }
        written := next;
      }
      assert data[..written] == data;
      ok := Settle();
    }
  }
}
