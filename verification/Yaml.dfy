/** YAML documents as trees; reading and emitting the text is taken as exact. */
module Yaml {
  datatype Node =
    | Scalar(text: string)
    | Sequence(items: seq<Node>)
    | Map(pairs: seq<Pair>)

  datatype Pair = Pair(key: string, value: Node)
}
