/** Names of cluster objects. */
module Names {
  datatype NodeName = NodeName(text: string)
}
