/** The messages of the peer wire protocol (bt/src/peer.rs; BEP 3, "peer messages"). */
module Messages {
  import opened Common

  datatype Message =
    | KeepAlive
    | Choke
    | Unchoke
    | Interested
    | NotInterested
    | Have(index: nat)
    | Bitfield(bits: seq<bv8>)
    | Request(index: nat, begin: nat, length: nat)
    | Piece(index: nat, begin: nat, data: seq<byte>)
    | Cancel(index: nat, begin: nat, length: nat)
    | Port(port: nat)
    | Extended(ext: byte, payload: seq<byte>)
}
