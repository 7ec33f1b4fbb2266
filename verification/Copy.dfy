/**
 Copying a file with reads and writes that may each move fewer bytes than asked for, or fail.

 How much a call moves and whether it fails is left open, except that a write of something moves something or fails.
 */
module Copy {

  class Source {
    const content: seq<char>
    var position: nat
    var failures: nat  // calls that have failed

    predicate Valid()
      reads this
    {
      position <= |content|
    }

    /** What has not been read yet. */
    function Rest(): seq<char>
      requires Valid()
      reads this
    {
      content[position..]
    }

    constructor (content: seq<char>)
      ensures Valid() && Rest() == content && failures == 0
    {
      this.content := content;
      position, failures := 0, 0;
    }

    /** Negative on error, 0 exactly at the end of the file. */
    method Read(buf: array<char>) returns (n: int)
      requires Valid() && 0 < buf.Length
      modifies this`position, this`failures, buf
      ensures Valid() && n <= buf.Length
      ensures n < 0 ==> Rest() == old(Rest())
      ensures n >= 0 ==> buf[..n] + Rest() == old(Rest())
      ensures n == 0 ==> Rest() == []
      ensures failures == old(failures) + if n < 0 then 1 else 0
    {
      var fails: bool := *;
      if fails {
        failures := failures + 1;
        return -1;
      }
      n := 0;
      if position < |content| {
        n :| 0 < n <= buf.Length && position + n <= |content|;
        forall i | 0 <= i < n {
          buf[i] := content[position + i];
        }
        position := position + n;
        assert buf[..n] == old(Rest())[..n];
      }
    }
  }

  class Destination {
    var content: seq<char>
    var failures: nat  // calls that have failed

    constructor ()
      ensures content == [] && failures == 0
    {
      content, failures := [], 0;
    }

    method Write(buf: array<char>, begin: nat, size: nat) returns (n: int)
      requires 0 < size && begin + size <= buf.Length
      modifies this
      ensures n == -1 || 0 < n <= size
      ensures content == old(content) + if n < 0 then [] else buf[begin..begin + n]
      ensures failures == old(failures) + if n < 0 then 1 else 0
    {
      var fails: bool := *;
      if fails {
        n, failures := -1, failures + 1;
      } else {
        n :| 0 < n <= size;
        content := content + buf[begin..begin + n];
      }
    }
  }

  /** Writes everything, however little each call moves; only a call that fails ends it early. */
  method WriteAll(dest: Destination, buf: array<char>, size: nat) returns (ok: bool)
    requires size <= buf.Length
    modifies dest
    ensures dest.failures == old(dest.failures) + if ok then 0 else 1
    ensures ok ==> dest.content == old(dest.content) + buf[..size]
    ensures old(dest.content) <= dest.content <= old(dest.content) + buf[..size]
  {
    var begin, left := 0, size;
    while left > 0
      invariant 0 <= begin <= size && left == size - begin
      invariant dest.content == old(dest.content) + buf[..begin] && dest.failures == old(dest.failures)
    {
      var wbytes := dest.Write(buf, begin, left);
      if wbytes < 0 {
        return false;
      }
      assert buf[..begin + wbytes] == buf[..begin] + buf[begin..begin + wbytes];
      begin := begin + wbytes;
      left := left - wbytes;
    }
    ok := true;
  }

  const BUFFER_SIZE := 1024

  /**
   The source arrives whole and in order if no call fails; otherwise the copying ends with the first call that does, and
   a beginning of the source has arrived: all that had been read, if it was a read that failed.
   */
  method CopyFile(source: Source, dest: Destination) returns (ok: bool)
    requires source.Valid()
    modifies source`position, source`failures, dest
    ensures source.Valid()
    ensures source.failures + dest.failures == old(source.failures) + old(dest.failures) + if ok then 0 else 1
    ensures ok ==> dest.content == old(dest.content) + old(source.Rest())
    ensures source.failures > old(source.failures) ==>
              dest.content + source.Rest() == old(dest.content) + old(source.Rest())
    ensures old(dest.content) <= dest.content <= old(dest.content) + old(source.Rest())
  {
    ghost var whole := dest.content + source.Rest();
    var buf := new char[BUFFER_SIZE];
    var rbytes := source.Read(buf);
    if rbytes < 0 {
      return false;
    }
    assert whole == dest.content + buf[..rbytes] + source.Rest();
    while rbytes > 0
      invariant source.Valid() && 0 <= rbytes <= buf.Length
      invariant rbytes == 0 ==> source.Rest() == []
      invariant old(dest.content) <= dest.content
      invariant source.failures == old(source.failures) && dest.failures == old(dest.failures)
      invariant dest.content + buf[..rbytes] + source.Rest() == whole
      decreases |source.Rest()| + rbytes
    {
      var ok' := WriteAll(dest, buf, rbytes);
      if !ok' {
        return false;
      }
      ghost var rest := source.Rest();
      rbytes := source.Read(buf);
      if rbytes < 0 {
        return false;
      }
      assert dest.content + rest == dest.content + buf[..rbytes] + source.Rest();
    }
    ok := true;
  }

  /** The same as one call from a file's contents to a copy. */
  method CopyContents(content: seq<char>) returns (ok: bool, copy: seq<char>, failures: nat)
    ensures failures == if ok then 0 else 1
    ensures copy <= content
    ensures ok ==> copy == content
  {
    var source := new Source(content);
    var dest := new Destination();
    ok := CopyFile(source, dest);
    copy, failures := dest.content, source.failures + dest.failures;
  }
}
