/**
 * The redis-py connection every key holds: the server behind it is a Store
 * value that write commands replace. A key reads the server by looking at
 * `db`, and changes it with `Send`.
 */
module RedisClient {
  import opened Python
  import opened Store

  /** What a command answers: its reply, or the error the server sent. */
  function Reply<T>(c: Result<Written<T>>): (r: Result<T>)
    ensures c.Ok? <==> r.Ok?
    ensures c.Ok? ==> r.value == c.value.reply
    ensures c.Err? ==> r.error == c.error
  {
    match c
    case Ok(w) => Ok(w.reply)
    case Err(e) => Err(e)
  }

  /** The server after a command: a rejected command changes nothing. */
  function After<T>(st: Store, c: Result<Written<T>>): Store {
    if c.Ok? then c.value.after else st
  }

  class Client {
    var db: Store

    constructor (st: Store)
      ensures db == st
    {
      db := st;
    }

    /** Sends a write command computed against the current state. */
    method Send<T>(c: Result<Written<T>>) returns (r: Result<T>)
      modifies this
      ensures r == Reply(c)
      ensures db == After(old(db), c)
    {
      r := Reply(c);
      if c.Ok? {
        db := c.value.after;
      }
    }

    /** Sends a command whose only answer is success or an error. */
    method SendStatus(c: Result<Store>) returns (r: Result<()>)
      modifies this
      ensures r.Ok? <==> c.Ok?
      ensures c.Err? ==> r == Err(c.error) && db == old(db)
      ensures c.Ok? ==> db == c.value
    {
      if c.Ok? {
        db := c.value;
        r := Ok(());
      } else {
        r := Err(c.error);
      }
    }
  }
}
