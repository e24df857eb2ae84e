/** The label map every node set is built with (internal/k8s/client.go): one map, shared by all. */
module NodeLabels {

  const INSTANCE := "app.kubernetes.io/instance"

  class LabelMap {
    var labels: map<string, string>

    constructor (labels: map<string, string>)
      ensures this.labels == labels
    {
      this.labels := labels;
    }
  }

  /** A node set under construction: its pod template and its claim refer to the configured map. */
  datatype Draft = Draft(name: string, podLabels: LabelMap, claimLabels: LabelMap)

  method NewDraft(config: LabelMap, name: string) returns (node: Draft)
    modifies config
    ensures node == Draft(name, config, config)
    ensures config.labels == old(config.labels)[INSTANCE := name]
  {
    config.labels := config.labels[INSTANCE := name];
    node := Draft(name, config, config);
  }

  /** Until they are sent, all drafts carry the name of the one built last. */
  method NewDrafts(config: LabelMap, names: seq<string>) returns (nodes: seq<Draft>)
    requires names != []
    modifies config
    ensures |nodes| == |names|
    ensures forall i | 0 <= i < |names| ::
              && nodes[i].name == names[i]
              && "app.kubernetes.io/instance" in nodes[i].podLabels.labels
              && nodes[i].podLabels.labels["app.kubernetes.io/instance"] == names[|names| - 1]
              && nodes[i].claimLabels.labels == nodes[i].podLabels.labels
    ensures forall k | k in old(config.labels) && k != "app.kubernetes.io/instance" ::
              k in config.labels && config.labels[k] == old(config.labels)[k]
  {
    nodes := [];
    for i := 0 to |names|
      invariant |nodes| == i
      invariant forall j | 0 <= j < i :: nodes[j] == Draft(names[j], config, config)
      invariant i > 0 ==> INSTANCE in config.labels && config.labels[INSTANCE] == names[i - 1]
      invariant forall k | k in old(config.labels) && k != INSTANCE ::
                  k in config.labels && config.labels[k] == old(config.labels)[k]
    {
      var node := NewDraft(config, names[i]);
      nodes := nodes + [node];
    }
  }
}
