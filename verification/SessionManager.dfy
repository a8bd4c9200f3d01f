/** acm_session_mgr: the handlers as they update the session list in place and call into q_mgr and the
    music-id client. */
module SessionManager {
  import opened AudioProperties
  import opened QueueProtocol
  import QueueManager
  import MusicIdSpec
  import M = MusicIdClient
  import opened Sessions

  /** An accepted open step by step: the old session goes, the new one is listed last, and the old one's
      client is stopped. */
  lemma OpenFacts(t: Table, src: int, outputType: nat)
    ensures var k, added := Replaced(t, outputType), Session(t.counter, t.nextClient, false, outputType);
      var grown := t.(sessions := Erased(t.sessions, k) + [added],
                      counter := t.counter + 1, nextClient := t.nextClient + 1);
      Handled(t, Open(src, outputType)) ==
        if src != 0 || outputType > 1 then t
        else if k < |t.sessions| then DropClient(grown, t.sessions[k].client) else grown
  {
    hide DropClient, Replaced, Erased;
  }

  class AcmSessionMgr {
    const source: QueueManager.QMgr
    var sessions: seq<Session>
    var counter: nat
    var nextClient: ClientId

    /** The session list together with the client list and started flag of q_mgr. */
    ghost function View(): Table
      reads this, source
    {
      Table(sessions, counter, nextClient, source.clients, source.started)
    }

    /** Handlers wait for the client-list mutex, so they run outside delivery passes. */
    ghost predicate Valid()
      reads this, source, source.pool
    {
      source.Valid() && !source.st.pc.Pass? && TableInv(View())
    }

    constructor (defaults: Properties)
      requires defaults.threshold > 0
      ensures Valid() && View() == Empty() && fresh(source) && fresh(source.pool)
    {
      source := new QueueManager.QMgr(defaults);
      sessions, counter, nextClient := [], 0, 0;
    }

    method GetSession(id: int) returns (k: nat)
      ensures k == IndexOfId(sessions, id)
    {
      k := 0;
      while k < |sessions|
        invariant k <= |sessions| && IndexOfId(sessions, id) == k + IndexOfId(sessions[k..], id)
      {
        if sessions[k].id == id {
          return;
        }
        assert sessions[k..][1..] == sessions[k+1..];
        k := k + 1;
      }
    }

    /** The session an open of this type replaces, or the list's length. */
    method FindDuplicate(outputType: nat) returns (k: nat)
      ensures k == Replaced(View(), outputType)
    {
      if outputType != BUFFERED_FILE_OUTPUT {
        return |sessions|;
      }
      k := 0;
      while k < |sessions|
        invariant k <= |sessions| && IndexOfBuffered(sessions) == k + IndexOfBuffered(sessions[k..])
      {
        if sessions[k].outputType == BUFFERED_FILE_OUTPUT {
          return;
        }
        assert sessions[k..][1..] == sessions[k+1..];
        k := k + 1;
      }
    }

    /** client->start() */
    method StartClient(c: ClientId)
      requires source.Valid() && !source.st.pc.Pass?
      modifies source
      ensures source.Valid() && !source.st.pc.Pass?
      ensures View() == AddClient(old(View()), c)
    {
      source.RegisterClient(c);
    }

    /** client->stop() */
    method StopClient(c: ClientId)
      requires source.Valid() && !source.st.pc.Pass?
      modifies source
      ensures source.Valid() && !source.st.pc.Pass?
      ensures View() == DropClient(old(View()), c)
    {
      source.UnregisterClient(c);
    }

    method OpenHandler(src: int, outputType: nat) returns (result: int, id: int)
      requires Valid()
      modifies this`sessions, this`counter, this`nextClient, source
      ensures Valid() && View() == Handled(old(View()), Open(src, outputType))
      ensures result == ResultOf(old(View()), Open(src, outputType))
      ensures result == 0 <==> src == 0 && (outputType == 0 || outputType == 1)
      ensures result == 0 <==> counter == old(counter) + 1
      ensures result == 0 ==> id == old(counter) && IndexOfId(sessions, id) < |sessions|
      ensures result == 0 ==>
        && sessions != []
        && sessions[|sessions|-1] == Session(old(counter), old(nextClient), false, outputType)
      ensures result != 0 ==> result == 5 && id == -1 && View() == old(View())
    {
      hide TableInv, IndexOfId, IndexOfBuffered, DropClient, Handled, OpenStep;
      ghost var t := View();
      HandlerKeeps(t, Open(src, outputType));
      OpenFacts(t, src, outputType);
      if src < 0 || MAX_SUPPORTED_SOURCES <= src || MAX_SUPPORTED_OUTPUT_TYPES <= outputType {
        return INVALID_ARGUMENTS, -1;
      }
      var added := Session(counter, nextClient, false, outputType);
      nextClient := nextClient + 1;
      counter := counter + 1;
      var duplicate := FindDuplicate(outputType);
      var isDuplicate := duplicate < |sessions|;
      var oldClient := if isDuplicate then sessions[duplicate].client else 0;
      if isDuplicate {
        sessions := sessions[..duplicate] + sessions[duplicate+1..];
      }
      sessions := sessions + [added];
      if isDuplicate {
        StopClient(oldClient);
      }
      assert sessions[|sessions|-1].id == added.id;
      return SUCCESS, added.id;
    }

    method CloseHandler(id: int) returns (result: int)
      requires Valid()
      modifies this`sessions, source
      ensures Valid() && View() == Handled(old(View()), Close(id)) && result == ResultOf(old(View()), Close(id))
    {
      hide TableInv;
      HandlerKeeps(View(), Close(id));
      var k := GetSession(id);
      if k < |sessions| {
        var session := sessions[k];
        sessions := sessions[..k] + sessions[k+1..];
        if session.enable {
          StopClient(session.client);
        }
        result := SUCCESS;
      } else {
        result := BAD_SESSION_ID;
      }
    }

    method StartHandler(id: int) returns (result: int)
      requires Valid()
      modifies this`sessions, source
      ensures Valid() && View() == Handled(old(View()), Call.Start(id)) && result == ResultOf(old(View()), Call.Start(id))
    {
      hide TableInv;
      HandlerKeeps(View(), Call.Start(id));
      var k := GetSession(id);
      if k < |sessions| {
        if !sessions[k].enable {
          StartClient(sessions[k].client);
          sessions := sessions[k := sessions[k].(enable := true)];
        }
        result := SUCCESS;
      } else {
        result := BAD_SESSION_ID;
      }
    }

    method StopHandler(id: int) returns (result: int)
      requires Valid()
      modifies this`sessions, source
      ensures Valid() && View() == Handled(old(View()), Call.Stop(id)) && result == ResultOf(old(View()), Call.Stop(id))
    {
      hide TableInv;
      HandlerKeeps(View(), Call.Stop(id));
      var k := GetSession(id);
      if k < |sessions| {
        if sessions[k].enable {
          StopClient(sessions[k].client);
          sessions := sessions[k := sessions[k].(enable := false)];
        }
        result := SUCCESS;
      } else {
        result := BAD_SESSION_ID;
      }
    }

    /** Is this the id of a buffered-file session? */
    predicate IsBuffered(id: int)
      reads this
    {
      var k := IndexOfId(sessions, id);
      k < |sessions| && sessions[k].outputType == BUFFERED_FILE_OUTPUT
    }

    /** A property change goes through the session's client. It restarts a running device with the new
        settings and leaves the table alone. `client` is the source's music-id client, if it has one: its
        rate changes whichever session asked, but it counts its precapture bytes anew only if asked itself. */
    method SetAudioPropsHandler(id: int, p: Properties, client: M.MusicIdClient?) returns (result: int)
      requires Valid() && (p.threshold != 0 || p == source.properties || BadProperties(p))
      requires client != null ==> client.Valid() && client.input == source.properties
      requires IsBuffered(id) ==> client != null
      modifies source, client
      ensures Valid() && View() == old(View())
      ensures result == if IndexOfId(sessions, id) == |sessions| then 4
        else if p != old(source.properties) && BadProperties(p) then -1 else 0
      ensures source.properties == if result == 0 then p else old(source.properties)
      ensures source.device == if source.started then QueueManager.Running(source.properties) else QueueManager.Stopped
      ensures source.events == old(source.events)
        + (if source.properties == old(source.properties) then [] else source.clients)
      ensures client != null ==> client.Valid() && client.input == source.properties
      ensures client != null ==>
        client.st == if result == 0 then MusicIdSpec.Apply(old(client.st), MusicIdSpec.SetProperties(p)) else old(client.st)
      ensures client != null ==>
        client.precaptureBytes ==
          if result == 0 && IsBuffered(id) then M.SecondsInBytes(client.precaptureSeconds, p)
          else old(client.precaptureBytes)
    {
      hide TableInv, M.InRun, M.SecondsInBytes, IndexOfId, DataRate;
      var k := GetSession(id);
      if k < |sessions| {
        result := source.SetAudioProperties(p);
        if sessions[k].outputType == BUFFERED_FILE_OUTPUT {
          result := client.SetAudioProperties(p, result);
        } else if client != null && result == 0 {
          client.ManagerChanged(p);
        }
      } else {
        result := BAD_SESSION_ID;
      }
    }
  }

  // Results below: 0 is success, 1 an unsupported call, 3 a duration out of bounds, 6 a general failure.

  /** The part of set_output_props_handler after the lookup, for a session of the given type: only
      durations below the maximum reach the client. */
  method SetOutputProps(session: Session, client: M.MusicIdClient, duration: nat) returns (result: int)
    requires client.Valid()
    modifies client
    ensures client.Valid()
    ensures result == if session.outputType != 0 then 1 else if duration >= 120 then 3 else 0
    ensures client.st == if result == 0 then MusicIdSpec.Apply(old(client.st), MusicIdSpec.SetPrecapture(duration))
      else old(client.st)
  {
    if session.outputType == BUFFERED_FILE_OUTPUT {
      if duration < MAX_CLIP_SECONDS {
        result := client.SetPrecaptureDuration(duration);
      } else {
        result := DURATION_OUT_OF_BOUNDS;
      }
    } else {
      result := UNSUPPORTED_API;
    }
  }

  /** The part of get_sample_handler after the lookup. A fresh-sample request within bounds is queued, and
      reported as a failure, because grab_fresh_sample answers -1. */
  method GetSample(session: Session, client: M.MusicIdClient, isPrecapture: bool, duration: nat) returns (result: int)
    requires client.Valid()
    requires isPrecapture && client.queue != [] ==>
      M.ClipReady(client.input, client.convertOutput, client.queue, client.precaptureSeconds)
    modifies client
    ensures client.Valid()
    ensures result ==
      if session.outputType != 0 then 1
      else if !session.enable then 3
      else if isPrecapture then (if old(client.queue) == [] then 6 else 0)
      else if duration > 120 then 3 else 6
    ensures client.st ==
      if session.outputType == 0 && session.enable && !isPrecapture && duration <= 120
      then MusicIdSpec.Apply(old(client.st), MusicIdSpec.Fresh(duration)) else old(client.st)
    ensures client.outbox ==
      if session.outputType == 0 && session.enable && isPrecapture && client.queue != []
      then old(client.outbox) + [M.ClipOf(client.input, client.convertOutput, client.queue, client.precaptureSeconds)]
      else old(client.outbox)
    ensures session.outputType == 0 && session.enable && isPrecapture && client.queue != [] ==>
      M.IsClip(client.input, client.convertOutput, client.queue, client.precaptureSeconds,
               client.outbox[|old(client.outbox)|])
  {
    hide M.ClipReady, M.ClipOf, M.IsClip;
    if session.outputType == BUFFERED_FILE_OUTPUT {
      if !session.enable {
        result := DURATION_OUT_OF_BOUNDS;
      } else {
        var ret := 0;
        result := SUCCESS;
        if isPrecapture {
          ret := client.GrabPrecapturedSample();
        } else if duration <= MAX_CLIP_SECONDS {
          ret := client.GrabFreshSample(duration);
        } else {
          result := DURATION_OUT_OF_BOUNDS;
        }
        if 0 != ret {
          result := GENERAL_FAILURE;
        }
      }
    } else {
      result := UNSUPPORTED_API;
    }
  }
}
