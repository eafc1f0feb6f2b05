/** Constants and records shared by every component of the client. */
module Types {
  datatype Option<+T> = None | Some(value: T)

  /** The "no descriptor" value of every descriptor variable. */
  const CLOSED: int := -1

  datatype Req = Connect | Close | Write | Read

  /** An entry of a peer's own queue. */
  datatype Query = Query(req: Req, msg: string)

  /** What one command line asks for, after parsing. */
  datatype Request = Request(ip: string, port: nat, fd: int, kind: Req, msg: string)
}
