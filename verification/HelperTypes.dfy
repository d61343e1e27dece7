// What git and a remote helper exchange.
module HelperTypes {
  import opened Options

  datatype FetchCmd = FetchCmd(oid: string, name: string)

  // An empty src asks for the deletion of dst.
  datatype PushSpec = PushSpec(force: bool, src: string, dst: string)

  // A symbolic ref has the name it stands for and no object id.
  datatype GitRef = GitRef(name: string, oid: string, symrefTarget: Option<string>)

  datatype Outcome = Accepted | Refused(message: string)

  datatype PushResult = PushResult(dst: string, result: Outcome)
}
