/** How a NodePool leads to its NodeClass. */
module ClassLookup {
  import opened Prelude

  /** What a read from the API server returns. */
  datatype Lookup<+T> = Found(value: T) | NotFound | Unreadable

  datatype ClassObject<+T> = ClassObject(terminating: bool, content: T)

  /** `pools` maps a NodePool to the NodeClass it refers to, if it refers to one; reads of the
      objects named in the two sets fail for reasons other than absence. */
  datatype Api<T> = Api(
    pools: map<string, Option<string>>,
    classes: map<string, ClassObject<T>>,
    unreadablePools: set<string>,
    unreadableClasses: set<string>)
  {
    function Pool(name: string): Lookup<Option<string>> {
      if name in unreadablePools then Unreadable
      else if name in pools then Found(pools[name])
      else NotFound
    }

    /** A terminating class is treated as not found. */
    function LiveClass(name: string): Lookup<T> {
      if name in unreadableClasses then Unreadable
      else if name in classes && !classes[name].terminating then Found(classes[name].content)
      else NotFound
    }
  }
}
