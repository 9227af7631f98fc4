/** The shared data endpoint of vercel-analytics/api/data.js.  It keeps a
    process-wide buffer of events (`global.analyticsData`): GET lists it,
    POST appends a batch and trims the buffer to the last 1000 events, and
    every other method except OPTIONS is refused with 405.  The buffer does
    not exist until the first POST. */
module DataApi {
  import opened Json
  import opened Seqs
  import opened Http

  /** How many events the buffer keeps. */
  const Cap: nat := 1000

  /** `global.analyticsData || []`. */
  function Current(buffer: Option<seq<Value>>): seq<Value> {
    if buffer.Some? then buffer.value else []
  }

  /** The buffer after a POST whose `events` field is `events`: created empty
      if absent, then extended by the batch and trimmed when the field is an
      array, and otherwise left as it was. */
  function AfterPost(buffer: Option<seq<Value>>, events: Option<Value>): seq<Value> {
    if events.Some? && events.value.Arr? then LastN(Current(buffer) + events.value.items, Cap)
    else Current(buffer)
  }

  /** A POST batch lands in order at the end of the buffer (as much of it as
      fits), and the buffer never holds more than 1000 events after an array
      batch. */
  lemma PostAppendsBatch(buffer: Option<seq<Value>>, batch: seq<Value>)
    requires |batch| <= Cap
    ensures var after := AfterPost(buffer, Some(Arr(batch)));
      && |after| <= Cap
      && |batch| <= |after| && after[|after| - |batch|..] == batch
  {
    var all := Current(buffer) + batch;
    var after := LastN(all, Cap);
    assert after[|after| - |batch|..] == all[|all| - |batch|..];
    assert all[|all| - |batch|..] == batch;
  }

  /** Nothing is dropped while the buffer stays within its cap. */
  lemma PostWithinCap(buffer: Option<seq<Value>>, batch: seq<Value>)
    requires |Current(buffer)| + |batch| <= Cap
    ensures AfterPost(buffer, Some(Arr(batch))) == Current(buffer) + batch
  {
  }

  /** The buffer after a run of POSTs, one batch each. */
  function AfterBatches(buffer: seq<Value>, batches: seq<seq<Value>>): seq<Value>
    decreases |batches|
  {
    if batches == [] then buffer
    else AfterBatches(AfterArrayPost(buffer, batches[0]), batches[1..])
  }

  /** The buffer after a POST of an array batch. */
  function AfterArrayPost(buffer: seq<Value>, batch: seq<Value>): (r: seq<Value>)
    ensures r == AfterPost(Some(buffer), Some(Arr(batch)))
    ensures r == LastN(buffer + batch, Cap)
  {
    AfterPost(Some(buffer), Some(Arr(batch)))
  }

  function Concat(batches: seq<seq<Value>>): seq<Value>
    decreases |batches|
  {
    if batches == [] then [] else batches[0] + Concat(batches[1..])
  }

  /** After any run of POSTs the buffer holds exactly the last 1000 events of
      everything posted, in posting order. */
  lemma {:induction false} BatchesKeepNewest(buffer: seq<Value>, batches: seq<seq<Value>>)
    requires |buffer| <= Cap
    decreases |batches|
    ensures AfterBatches(buffer, batches) == LastN(buffer + Concat(batches), Cap)
  {
    if batches == [] {
      assert buffer + Concat(batches) == buffer;
    } else {
      var next := LastN(buffer + batches[0], Cap);
      BatchesKeepNewest(next, batches[1..]);
      LastNAppend(buffer + batches[0], Concat(batches[1..]), Cap);
      assert buffer + batches[0] + Concat(batches[1..]) == buffer + Concat(batches);
    }
  }

  class DataEndpoint {
    /** `global.analyticsData`: absent until the first POST. */
    var buffer: Option<seq<Value>>

    /** The buffer never exceeds its cap. */
    predicate Valid()
      reads this
    {
      buffer.Some? ==> |buffer.value| <= Cap
    }

    constructor ()
      ensures buffer.None? && Valid()
    {
      buffer := None;
    }

    /** The handler.  A POST without a body cannot be destructured: the
        exception becomes a 500 from the platform and the buffer is
        untouched. */
    method Handle(httpMethod: string, body: Option<Value>, nowIso: string) returns (reply: Reply)
      requires Valid()
      modifies this`buffer
      ensures Valid()
      ensures httpMethod == "OPTIONS" ==> reply == Reply(200, None) && buffer == old(buffer)
      ensures httpMethod == "GET" ==>
        var data := Current(old(buffer));
        && buffer == old(buffer)
        && reply == Reply(200, Some(Obj(map["success" := Bool(true), "data" := Arr(data),
                                            "count" := Num(|data|), "timestamp" := Str(nowIso)])))
      ensures httpMethod == "POST" && (body.None? || body.value.Null?) ==>
        reply.status == 500 && buffer == old(buffer)
      ensures httpMethod == "POST" && body.Some? && !body.value.Null? ==>
        && buffer == Some(AfterPost(old(buffer), Get(body, "events")))
        && reply == Reply(200, Some(Obj(map["success" := Bool(true), "count" := Num(|buffer.value|),
                                             "timestamp" := Str(nowIso)])))
      ensures httpMethod !in {"OPTIONS", "GET", "POST"} ==>
        reply == Reply(405, Some(Obj(map["error" := Str("Method not allowed")]))) && buffer == old(buffer)
    {
      if httpMethod == "OPTIONS" {
        return Reply(200, None);
      }
      if httpMethod == "GET" {
        var data := if buffer.Some? then buffer.value else [];
        return Reply(200, Some(Obj(map["success" := Bool(true), "data" := Arr(data),
                                       "count" := Num(|data|), "timestamp" := Str(nowIso)])));
      }
      if httpMethod == "POST" {
        if body.None? || body.value.Null? {
          return Reply(500, None);
        }
        var events := Get(body, "events");
        if buffer.None? {
          buffer := Some([]);
        }
        if events.Some? && events.value.Arr? {
          var data := buffer.value + events.value.items;
          if |data| > Cap {
            data := data[|data| - Cap..];
          }
          buffer := Some(data);
        }
        return Reply(200, Some(Obj(map["success" := Bool(true), "count" := Num(|buffer.value|),
                                       "timestamp" := Str(nowIso)])));
      }
      reply := Reply(405, Some(Obj(map["error" := Str("Method not allowed")])));
    }
  }

  /** A POST whose `events` is not an array leaves the buffer's contents as
      they were (an absent buffer becomes an empty one). */
  lemma NonArrayPostKeepsBuffer(buffer: Option<seq<Value>>, events: Option<Value>)
    requires events.None? || !events.value.Arr?
    ensures AfterPost(buffer, events) == Current(buffer)
  {
  }
}
