/** The pipe as the object its goroutines share; each method is one locked section or one signal. */
module PipeObject {
  import opened Bytes
  import P = PipeProtocol
  import opened PipeSafety

  /** MultiBuffer.Len adds 32-bit lengths. */
  method Len(mb: seq<Chunk>) returns (size: int)
    ensures size == Int32(|Flatten(mb)|)
  {
    size := 0;
    for i := 0 to |mb|
      invariant size == Int32(|Flatten(mb[..i])|)
    {
      FlattenTake(mb, i);
      Int32Add(|Flatten(mb[..i])|, |mb[i]|);
      size := Int32(size + |mb[i]|);
    }
    assert mb[..|mb|] == mb;
  }

  /** MultiBuffer.IsEmpty: no buffer holds a byte. */
  method HasNoBytes(mb: seq<Chunk>) returns (empty: bool)
    ensures empty <==> Flatten(mb) == []
  {
    for i := 0 to |mb|
      invariant forall j :: 0 <= j < i ==> mb[j] == []
    {
      if mb[i] != [] {
        EmptyMeansNoBytes(mb);
        return false;
      }
    }
    EmptyMeansNoBytes(mb);
    return true;
  }

  class Pipe {
    const option: P.Config
    var data: Option<seq<Chunk>>
    var status: P.Status
    var readToken: bool
    var writeToken: bool
    var done: bool
    var pendingError: Option<int>

    /** The abstract value the step system works on. */
    ghost function View(): P.Shared
      reads this
    {
      P.Shared(data, status, readToken, writeToken, done, pendingError)
    }

    constructor (option: P.Config)
      ensures View() == P.Initial(0).sh && this.option == option
    {
      this.option := option;
      data, status, readToken, writeToken, done, pendingError := None, P.Open, false, false, false, None;
    }

    method GetState(forRead: bool) returns (err: Option<P.Failure>)
      ensures err == P.GetState(option, View(), forRead)
      ensures err == Some(P.EndOfFile) <==> forRead && status == P.Closed && P.Content(data) == []
      ensures err == Some(P.ClosedPipe) <==> status == P.Errored || (status == P.Closed && !forRead)
      ensures err == Some(P.BufferFull) <==>
                !forRead && status == P.Open && 0 <= option.limit < Int32(|P.Content(data)|)
      ensures err in {None, Some(P.EndOfFile), Some(P.ClosedPipe), Some(P.BufferFull)}
    {
      match status {
        case Open =>
          var size := 0;
          if data.Some? { size := Len(data.value); }
          err := if !forRead && option.limit >= 0 && size > option.limit then Some(P.BufferFull) else None;
        case Closed =>
          if !forRead { return Some(P.ClosedPipe); }
          if data.Some? {
            var empty := HasNoBytes(data.value);
            EmptyMeansNoBytes(data.value);
            if !empty { return None; }
          }
          err := Some(P.EndOfFile);
        case Errored =>
          err := Some(P.ClosedPipe);
      }
    }

    method ReadInternal() returns (outcome: P.ReadOutcome)
      modifies this
      ensures (View(), outcome) == P.ReadSection(option, old(View()))
    {
      var err := GetState(true);
      if err.Some? { return P.Failed(err.value); }
      outcome := if data.Some? then P.Data(data.value) else P.Nothing;
      data := None;
    }

    method WriteInternal(mb: seq<Chunk>) returns (err: Option<P.Failure>)
      modifies this
      ensures (View(), err) == P.WriteSection(option, old(View()), mb)
    {
      err := GetState(false);
      if err.Some? { return; }
      if data.None? {
        data := Some(mb);
        return None;
      }
      data := Some(data.value + mb);
      err := Some(P.SlowDown);
    }

    /** Notifier.Signal: the one slot takes a token unless it holds one already. */
    method SignalReaders()
      modifies this`readToken
      ensures View() == old(View()).(readToken := true)
    {
      if !readToken { readToken := true; }
    }

    method SignalWriters()
      modifies this`writeToken
      ensures View() == old(View()).(writeToken := true)
    {
      if !writeToken { writeToken := true; }
    }

    method Close()
      modifies this
      ensures View() == P.CloseSection(old(View()))
    {
      if status == P.Closed || status == P.Errored { return; }
      status := P.Closed;
      done := true;
    }

    method Interrupt()
      modifies this
      ensures View() == P.InterruptSection(old(View()))
    {
      if status == P.Closed || status == P.Errored { return; }
      status := P.Errored;
      if data.Some? {
        var empty := HasNoBytes(data.value);
        EmptyMeansNoBytes(data.value);
        if !empty { data := None; }
      }
      done := true;
    }
  }
}
