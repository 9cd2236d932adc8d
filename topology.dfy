/**
 * The cluster topology as ksck fetches it from the master: a table is made
 * of tablets and a tablet of replicas. A replica is an immutable value; a
 * tablet and a table keep an immutable identity and a collection that the
 * fetch step replaces as a whole.
 */
module Topology {

  /**
   * One replica of a tablet, hosted by the tablet server whose permanent
   * uuid is tsUuid. The replica refers to its server by that uuid only.
   */
  datatype Replica = Replica(tsUuid: string, isLeader: bool, isFollower: bool)

  /** A tablet of a table: its id and the replicas the master reports. */
  class KsckTablet {
    const id: string
    var replicas: seq<Replica>

    constructor (id: string)
      ensures this.id == id && replicas == []
    {
      this.id := id;
      replicas := [];
    }

    /** Replaces the replica list by exactly `rs`, in order. */
    method SetReplicas(rs: seq<Replica>)
      modifies this`replicas
      ensures replicas == rs
    {
      replicas := rs;
    }
  }

  /**
   * A table: its name, its target replication factor (a C++ int) and its
   * tablets. The schema is not part of this model.
   */
  class KsckTable {
    const name: string
    const numReplicas: int
    var tablets: seq<KsckTablet>

    constructor (name: string, numReplicas: int)
      ensures this.name == name && this.numReplicas == numReplicas && tablets == []
    {
      this.name := name;
      this.numReplicas := numReplicas;
      tablets := [];
    }

    /** Replaces the tablet list by exactly `ts`, in order. */
    method SetTablets(ts: seq<KsckTablet>)
      modifies this`tablets
      ensures tablets == ts
    {
      tablets := ts;
    }
  }
}
