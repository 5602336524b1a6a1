/**
  The records the orchestration API delivers, as far as the status task reads
  them: a stack's id and optional name, and a container's names, state and
  labels. A JavaScript `undefined` property is `None`.
 */
module Portainer {
  import opened Options

  /** A stack as listed by the API; `id` is used as the key of the message map. */
  datatype Stack = Stack(id: string, name: Option<string>)

  /** A container as listed by the API. `names` may be empty; `labels` is always an object. */
  datatype Container = Container(names: seq<string>, state: string, labels: map<string, string>)

  /** The label that names a container's compose project. */
  const PROJECT_LABEL: string := "com.docker.compose.project"
}
