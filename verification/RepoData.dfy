/** Blocks, content identifiers and commit events shared by the repo engine and the firehose.

    A `Cid` is modelled by the block it addresses. SHA-256 over DAG-CBOR is taken
    to be injective, so equal identifiers mean equal contents and a block can only
    refer to blocks that existed before it. The Merkle search tree is one block
    holding the finite map from record key to record CID. */
module RepoData {
  import opened Wrappers

  type Did = string
  type Key = string
  type Rev = string
  type Bytes = seq<Byte>

  datatype Cid = Cid(content: Block)

  datatype Block =
    | Record(bytes: Bytes)
    | Tree(entries: map<Key, Cid>)
    | Commit(did: Did, data: Cid, rev: Rev, prev: Option<Cid>, sig: Bytes)

  /** One entry of a `#commit` event's `ops`. */
  datatype RepoOp =
    | Put(create: bool, path: Key, cid: Cid)
    | Remove(path: Key)

  /** The stored `#commit` body. `seq` is kept beside it in the log row. */
  datatype CommitBody = CommitBody(repo: Did, commit: Cid, rev: Rev, since: Option<Rev>, ops: seq<RepoOp>)
}
