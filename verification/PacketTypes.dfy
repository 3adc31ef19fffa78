/** Ports, packet IDs and packet flows of the stream switches. */
module PacketTypes {

  datatype TileLoc = TileLoc(col: int, row: int)

  datatype Port = Port(bundle: nat, channel: int)

  datatype Direction = SRC | DST

  datatype PhysPort = PhysPort(tile: TileLoc, port: Port, dir: Direction)

  type Id = nat

  datatype PhysPortAndID = PhysPortAndID(physPort: PhysPort, id: Id)

  function PhysPortsOf(dsts: seq<PhysPortAndID>): (r: set<PhysPort>)
    ensures forall p :: p in r <==> exists i :: 0 <= i < |dsts| && dsts[i].physPort == p
  {
    set i | 0 <= i < |dsts| :: dsts[i].physPort
  }
}
