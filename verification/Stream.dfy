/** A file descriptor open for reading, and the loop that fills a buffer from it. */
module Streams {
  import opened Bytes

  class Stream {
    /** The bytes the peer sent that were not read yet; after them comes end of file. */
    var rest: seq<byte>

    constructor (bytes: seq<byte>)
      ensures rest == bytes
    {
      rest := bytes;
    }

    /** One `read` call: the operating system picks how many bytes it hands over. */
    method Read(length: nat) returns (got: seq<byte>)
      modifies this
      ensures |got| <= length && got + rest == old(rest)
      ensures got == [] <==> length == 0 || old(rest) == []
    {
      if length == 0 || rest == [] {
        got := [];
      } else {
        var n :| 1 <= n <= length && n <= |rest|;
        got, rest := rest[..n], rest[n..];
      }
    }

    /** Fills `buf[..length]` however the bytes are chunked; `false` is end of file. */
    method MustRead(buf: array<byte>, length: nat) returns (ok: bool)
      requires length <= buf.Length
      modifies this, buf
      ensures ok <==> length <= |old(rest)|
      ensures ok ==> buf[..length] == old(rest)[..length] && rest == old(rest)[length..]
      ensures !ok ==> rest == [] && buf[..|old(rest)|] == old(rest)
      ensures forall i :: length <= i < buf.Length ==> buf[i] == old(buf[i])
    {
      var at, left := 0, length;
      while left > 0
        invariant 0 <= at && 0 <= left && at + left == length && at <= |old(rest)|
        invariant rest == old(rest)[at..]
        invariant forall i :: 0 <= i < at ==> buf[i] == old(rest)[i]
        invariant forall i :: length <= i < buf.Length ==> buf[i] == old(buf[i])
      {
        ghost var before := rest;
        var got := Read(left);
        if got == [] {
          return false;
        }
        forall i | 0 <= i < |got| {
          buf[at + i] := got[i];
        }
        assert before == got + rest;
        assert forall i :: 0 <= i < |got| ==> before[i] == got[i];
        at, left := at + |got|, left - |got|;
      }
      return true;
    }
  }
}
