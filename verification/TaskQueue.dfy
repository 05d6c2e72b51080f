/** The task queue: a Redis list shared by the workers and the storage service. */
module TaskQueues {
  import opened Wrappers
  import opened CrawlProtocol

  /** The outcomes of `pop_front`. */
  datatype Popping = GotUrl(url: Url) | Nothing | ParseError | QueueError

  /** `ok` and `parses` say how Redis and the URL parser answer; a command that fails has no effect. */
  class TaskQueue {
    var items: seq<Url>

    constructor ()
      ensures items == []
    {
      items := [];
    }

    method Push(url: Url, ok: bool)
      modifies this
      ensures items == if ok then old(items) + [url] else old(items)
    {
      if ok {
        items := items + [url];
      }
    }

    method PushBulk(urls: seq<Url>, ok: bool) returns (added: Option<nat>)
      modifies this
      ensures urls == [] ==> added == Some(0) && items == old(items)
      ensures urls != [] && ok ==> added == Some(|urls|) && items == old(items) + urls
      ensures urls != [] && !ok ==> added == None && items == old(items)
    {
      if urls == [] {
        return Some(0);
      }
      if !ok {
        return None;
      }
      items := items + urls;
      return Some(|urls|);
    }

    /** The entry is removed before it is parsed. */
    method PopFront(ok: bool, parses: bool) returns (popped: Popping)
      modifies this
      ensures !ok ==> popped == QueueError && items == old(items)
      ensures ok && old(items) == [] ==> popped == Nothing && items == []
      ensures ok && old(items) != [] ==>
                popped == (if parses then GotUrl(old(items)[0]) else ParseError) && items == old(items)[1..]
    {
      if !ok {
        return QueueError;
      }
      if items == [] {
        return Nothing;
      }
      var line := items[0];
      items := items[1..];
      return if parses then GotUrl(line) else ParseError;
    }

    method IsEmpty(ok: bool) returns (r: Option<bool>)
      ensures r == if ok then Some(items == []) else None
    {
      return if ok then Some(|items| == 0) else None;
    }

    method Len(ok: bool) returns (r: Option<usize>)
      ensures r == if ok then Some(|items| % MODULUS) else None
    {
      return if ok then Some(|items| % MODULUS) else None;
    }

    method CleanQueue(ok: bool)
      modifies this
      ensures items == if ok then [] else old(items)
    {
      if ok {
        items := [];
      }
    }
  }
}
