/** The cluster metadata the broker was started with (src/cluster/metadata.hpp). */
module Cluster {
  import opened Bytes
  import opened Protocol

  datatype TopicInfo = TopicInfo(name: bytes, uuid: Uuid, partitions: seq<int32>)

  datatype ClusterMetadata = ClusterMetadata(topics: seq<TopicInfo>, nameToTopic: map<bytes, nat>, uuidToTopic: map<Uuid, nat>)

  /** Both indexes point into the topic list. */
  ghost predicate Indexed(m: ClusterMetadata)
  {
    && (forall name :: name in m.nameToTopic ==> m.nameToTopic[name] < |m.topics|)
    && (forall uuid :: uuid in m.uuidToTopic ==> m.uuidToTopic[uuid] < |m.topics|)
  }

  function TopicByName(m: ClusterMetadata, name: bytes): Option<TopicInfo>
  {
    if name in m.nameToTopic && m.nameToTopic[name] < |m.topics| then Some(m.topics[m.nameToTopic[name]]) else None
  }

  function TopicByUuid(m: ClusterMetadata, uuid: Uuid): Option<TopicInfo>
  {
    if uuid in m.uuidToTopic && m.uuidToTopic[uuid] < |m.topics| then Some(m.topics[m.uuidToTopic[uuid]]) else None
  }
}
