/**
 Reading an input of untrusted size: a declared length that may be a lie, reads that return any number
 of bytes, and a bound enforced on both.
 */
module BoundedRead {
  import opened Bytes

  function SaturatingAdd(a: nat, b: nat): nat {
    if a + b > U64_MAX then U64_MAX else a + b
  }

  function Min(a: nat, b: nat): nat {
    if a < b then a else b
  }

  /** A source of bytes that is read in pieces of its own choosing, and that may fail. */
  class Source {
    var rest: seq<Byte>
    /** How much each read yields at most, beyond one byte; past the end, one byte a time. */
    var sizes: seq<nat>
    /** How many reads succeed before one fails, if one does. */
    var fails: Option<nat>

    constructor (stream: seq<Byte>, sizes: seq<nat>, fails: Option<nat>)
      ensures rest == stream && this.sizes == sizes && this.fails == fails
    {
      rest := stream;
      this.sizes := sizes;
      this.fails := fails;
    }

    /** One read of at most `max` bytes: empty only at the end of the stream or when nothing was asked for. */
    method Read(max: nat) returns (r: Option<seq<Byte>>)
      modifies this
      ensures r.None? ==> rest == old(rest) && old(fails).Some?
      ensures r.Some? ==> old(rest) == r.value + rest && |r.value| <= max
      ensures r.Some? && r.value == [] ==> max == 0 || rest == []
      ensures old(fails).None? ==> fails.None?
    {
      if fails.Some? {
        if fails.value == 0 {
          return None;
        }
        fails := Some(fails.value - 1);
      }
      var size := 1;
      if sizes != [] {
        size := 1 + sizes[0];
        sizes := sizes[1..];
      }
      var n := Min(size, Min(max, |rest|));
      r := Some(rest[..n]);
      rest := rest[n..];
    }

    /** `take(limit).read_to_end(&mut buf)` */
    method ReadToEnd(limit: nat) returns (ok: bool, buf: seq<Byte>)
      modifies this
      ensures old(rest) == buf + rest && |buf| <= limit
      ensures ok ==> |buf| == Min(limit, |old(rest)|)
      ensures old(fails).None? ==> ok
    {
      buf := [];
      var left := limit;
      while left > 0
        invariant old(rest) == buf + rest && |buf| + left == limit && left >= 0
        invariant old(fails).None? ==> fails.None?
      {
        var chunk := Read(left);
        if chunk.None? {
          return false, buf;
        }
        if chunk.value == [] {
          return true, buf;
        }
        buf := buf + chunk.value;
        left := left - |chunk.value|;
      }
      ok := true;
    }
  }

  datatype Outcome = Accepted(bytes: seq<Byte>) | DeclaredTooLarge | StreamTooLarge | ReadFailed

  /**
   `read_bounded`. A declared length over the bound reads nothing. Otherwise the whole stream is returned
   exactly when it fits; at most one byte past the bound is ever consumed. At the largest bound there is
   no byte past it to ask for, so a stream longer than that is cut there instead of refused.
   */
  method ReadBounded(declared: nat, source: Source, bound: nat) returns (r: Outcome)
    requires declared <= U64_MAX && bound <= U64_MAX
    modifies source
    ensures declared > bound ==> r == DeclaredTooLarge && source.rest == old(source.rest)
    ensures |old(source.rest)| - |source.rest| <= SaturatingAdd(bound, 1)
    ensures r.Accepted? ==> r.bytes + source.rest == old(source.rest) && declared <= bound
    ensures r.Accepted? ==> source.rest == [] || bound == U64_MAX == |r.bytes|
    ensures old(source.fails).None? && (bound < U64_MAX || |old(source.rest)| <= U64_MAX) ==>
              (r == Accepted(old(source.rest)) <==> declared <= bound && |old(source.rest)| <= bound)
    ensures old(source.fails).None? ==> r != ReadFailed
    ensures r == StreamTooLarge ==> |old(source.rest)| > bound && bound < U64_MAX
  {
    if declared > bound {
      return DeclaredTooLarge;
    }
    var ok, buf := source.ReadToEnd(SaturatingAdd(bound, 1));
    if !ok {
      return ReadFailed;
    }
    if |buf| > bound {
      return StreamTooLarge;
    }
    r := Accepted(buf);
  }
}
