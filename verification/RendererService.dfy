/** The provider around the reducer: state, sequence reference and flags changed by asynchronous steps. */
module RendererService {
  import opened Options
  import opened Protocol
  import opened Renderer
  import opened Replication

  /** How asking for a bootstrap and subscribing after it turned out. */
  datatype Attempt =
    | Bootstrapped(bootstrap: Captured)
    | BootstrappedOnly(bootstrap: Captured, error: ClientError)
    | Refused(error: ClientError)

  datatype ClientError = ProtocolIncompatible | OtherError

  /** An error is shown as an unknown protocol version or as a lost connection. */
  function Reported(native: Native, error: ClientError): Native {
    if error.ProtocolIncompatible? then Reduce(native, SetProtocolIncompatible(None))
    else Reduce(native, SetConnection(Disconnected))
  }

  class NativeProvider {
    var native: Native
    var cursor: Option<nat>
    var subscribed: bool
    var resyncing: bool
    var cancelled: bool

    /** A subscription starts only after a bootstrap set the sequence reference. */
    predicate Valid()
      reads this
    {
      subscribed ==> cursor.Some?
    }

    constructor ()
      ensures Valid() && native == INITIAL && cursor == None && !subscribed && !resyncing && !cancelled
    {
      native, cursor, subscribed, resyncing, cancelled := INITIAL, None, false, false, false;
    }

    /** One frame; `resync` tells whether it asks for one. While subscribed only the next frame is applied. */
    method OnFrame(f: Frame) returns (resync: bool)
      requires Valid()
      modifies this`native, this`cursor
      ensures Valid() && (native, cursor) == Handle(old(native), old(cursor), f)
      ensures resync <==> EvaluateSequence(f, old(cursor)).Gap?
                          || (EvaluateSequence(f, old(cursor)).Accept? && f.payload.ResyncRequired?)
      ensures subscribed && cursor != old(cursor) ==> f.sequence == old(cursor).value + 1 && cursor == Some(f.sequence)
    {
      var acceptance := EvaluateSequence(f, cursor);
      if acceptance.Gap? {
        native := Reduce(native, SetResyncReason("sequence gap"));
        return true;
      }
      if acceptance.Duplicate? { return false; }
      if f.payload.ResyncRequired? {
        native := Reduce(native, SetResyncReason(f.payload.reason));
        return true;
      }
      cursor := Some(acceptance.next);
      native := Reduce(native, ApplyFrame(f));
      resync := false;
    }

    /** At most one resync is under way; the old subscription stops before the new bootstrap is asked for. */
    method BeginResync() returns (started: bool)
      requires Valid()
      modifies this
      ensures Valid() && cursor == old(cursor) && cancelled == old(cancelled)
      ensures started <==> !old(resyncing) && !old(cancelled)
      ensures resyncing == (old(resyncing) || started)
      ensures subscribed == (old(subscribed) && !started)
      ensures native == if started then Reduce(old(native), SetConnection(Resyncing)) else old(native)
    {
      if resyncing || cancelled { return false; }
      resyncing := true;
      native := Reduce(native, SetConnection(Resyncing));
      subscribed := false;
      started := true;
    }

    /** A bootstrap is installed even when subscribing to it then fails; errors are reported; nothing
        happens once cancelled. */
    method FinishResync(attempt: Attempt)
      requires Valid() && resyncing
      modifies this
      ensures Valid() && !resyncing && cancelled == old(cancelled)
      ensures cancelled || attempt.Refused? ==> cursor == old(cursor) && subscribed == old(subscribed)
      ensures cancelled ==> native == old(native)
      ensures !cancelled && attempt.Refused? ==> native == Reported(old(native), attempt.error)
      ensures !cancelled && !attempt.Refused? ==> cursor == Some(attempt.bootstrap.sequence)
      ensures !cancelled && attempt.Bootstrapped? ==>
                native == Installed(old(native), attempt.bootstrap) && subscribed
      ensures !cancelled && attempt.BootstrappedOnly? ==>
                native == Reported(Installed(old(native), attempt.bootstrap), attempt.error)
                && subscribed == old(subscribed)
    {
      resyncing := false;
      if cancelled { return; }
      if !attempt.Refused? {
        var c := attempt.bootstrap;
        cursor := Some(c.sequence);
        native := Reduce(native, ApplyBootstrap(c.snapshot, c.sequence, c.events));
        native := Reduce(native, ClearResync);
      }
      if attempt.Bootstrapped? { subscribed := true; } else { native := Reported(native, attempt.error); }
    }

    /** The first connection: a bootstrap of this protocol version leaves the state a resync would. */
    method Connect(attempt: Attempt)
      requires Valid()
      modifies this
      ensures Valid() && resyncing == old(resyncing) && cancelled == old(cancelled)
      ensures cancelled || attempt.Refused? ==> cursor == old(cursor) && subscribed == old(subscribed)
      ensures cancelled ==> native == Reduce(old(native), SetConnection(Loading))
      ensures !cancelled && attempt.Refused? ==>
                native == Reported(Reduce(old(native), SetConnection(Loading)), attempt.error)
      ensures !cancelled && !attempt.Refused? ==> cursor == Some(attempt.bootstrap.sequence)
      ensures !cancelled && attempt.Bootstrapped? ==> subscribed
      ensures !cancelled && !attempt.Refused? && attempt.bootstrap.snapshot.version == PROTOCOL_VERSION ==>
                native == var shown := Installed(old(native), attempt.bootstrap);
                          if attempt.Bootstrapped? then shown else Reported(shown, attempt.error)
    {
      native := Reduce(native, SetConnection(Loading));
      if cancelled { return; }
      if !attempt.Refused? {
        var c := attempt.bootstrap;
        cursor := Some(c.sequence);
        native := Reduce(native, ApplyBootstrap(c.snapshot, c.sequence, c.events));
      }
      if attempt.Bootstrapped? { subscribed := true; } else { native := Reported(native, attempt.error); }
    }

    /** Unmounting: nothing under way may finish, and the cursor is dropped at once. */
    method CleanUp()
      modifies this
      ensures Valid() && cancelled && cursor == None && !subscribed && native == old(native)
      ensures resyncing == old(resyncing)
    {
      cancelled := true;
      cursor := None;
      subscribed := false;
    }

    /** Mounting again lifts the cancellation before the next connection. */
    method Mount()
      requires Valid()
      modifies this`cancelled
      ensures Valid() && !cancelled
    {
      cancelled := false;
    }
  }
}
