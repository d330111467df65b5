// HTTPRangeRequestContext as an object: the callbacks of one range request, which
// write into the caller's buffer and resolve the file's range probe.
module RangeContext {
  import opened Common
  import R = RangeRead
  import P = RangeProbe
  import S = RangeState

  datatype Reply = Continue | Cancel | Throw

  datatype End = NotSupportedError | ShortReadError | Response(accepted: bool)

  // What marking makes of a guard's own support.
  function Marked(enabled: bool, support: P.Support, mark: R.Mark): P.Support {
    if !enabled then support
    else if mark.MarkNotSupported? then P.NotSupported
    else if support == P.Unknown then P.Supported
    else support
  }

  class HTTPRangeRequestContext {
    const bufferOut: array<byte>
    const conditional: bool
    const guard: S.Guard
    var outOffset: nat
    var unsupported: bool
    ghost var marks: seq<R.Mark>

    ghost predicate Valid()
      reads this
    {
      outOffset <= bufferOut.Length
    }

    ghost function View(): R.Transfer
      reads this, bufferOut
    {
      R.Transfer(bufferOut[..], outOffset, unsupported, marks)
    }

    constructor (bufferOut: array<byte>, conditional: bool, guard: S.Guard)
      ensures Valid() && View() == R.Empty(bufferOut[..])
      ensures this.bufferOut == bufferOut && this.conditional == conditional && this.guard == guard
    {
      this.bufferOut, this.conditional, this.guard := bufferOut, conditional, guard;
      outOffset, unsupported, marks := 0, false, [];
    }

    // `etagOk` is false when validating the response's ETag throws.
    method HandleResponse(status: nat, contentLength: Option<nat>, etagOk: bool) returns (reply: Reply)
      requires Valid()
      modifies this, guard, guard.state
      ensures Valid()
      ensures match R.HandleResponse(old(View()), R.Attempt(status, contentLength, etagOk, []), conditional)
        case Raise => reply == Throw
        case Stop(t) => reply == Cancel && View() == t
        case Proceed(t) => reply == Continue && View() == t
      ensures marks == old(marks) || (|marks| == |old(marks)| + 1 && old(marks) < marks)
      ensures guard.support == if marks == old(marks) then old(guard.support)
        else Marked(guard.enabled, old(guard.support), marks[|marks| - 1])
    {
      if status == 412 && conditional {
        return Cancel;
      }
      if status >= 400 {
        return Throw;
      }
      if status >= 300 {
        return Continue;
      }
      outOffset := 0;
      if !etagOk {
        return Throw;
      }
      if contentLength.Some? && contentLength.value != bufferOut.Length {
        unsupported := true;
        guard.MarkNotSupported();
        marks := marks + [R.MarkNotSupported];
        return Cancel;
      }
      if status == 206 {
        guard.MarkSupported();
        marks := marks + [R.MarkSupported];
      }
      return Continue;
    }

    // False when the server sent more than was asked for.
    method HandleContent(data: Bytes) returns (ok: bool)
      requires Valid()
      modifies this`outOffset, bufferOut
      ensures Valid() && ok == R.Fits(old(View()), data)
      ensures View() == if ok then R.HandleContent(old(View()), data) else old(View())
    {
      if outOffset > bufferOut.Length || |data| > bufferOut.Length - outOffset {
        return false;
      }
      for i := 0 to |data|
        invariant outOffset == old(outOffset)
        invariant forall k :: 0 <= k < bufferOut.Length ==>
          bufferOut[k] == if outOffset <= k < outOffset + i then data[k - outOffset] else old(bufferOut[k])
      {
        bufferOut[outOffset + i] := data[i];
      }
      outOffset := outOffset + |data|;
      return true;
    }

    method Finalize(end: R.Final) returns (r: End)
      requires Valid()
      modifies this, guard, guard.state
      ensures Valid() && bufferOut[..] == old(bufferOut[..])
      ensures match R.Finalize(old(View()), end)
        case Unsupported => r == NotSupportedError && View() == old(View())
        case ShortRead => r == ShortReadError && View() == old(View())
        case Responded(t) => r == Response(R.Accepted(end)) && View() == t
      ensures guard.support == if marks == old(marks) then old(guard.support)
        else Marked(guard.enabled, old(guard.support), R.MarkSupported)
    {
      if unsupported {
        return NotSupportedError;
      }
      if !end.requestError && end.success && outOffset != bufferOut.Length {
        return ShortReadError;
      }
      if end.success || end.status == 206 || end.status == 202 {
        guard.MarkSupported();
        marks := marks + [R.MarkSupported];
        return Response(true);
      }
      return Response(false);
    }
  }
}
