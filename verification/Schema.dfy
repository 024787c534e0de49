/**
 The values that travel between dispatcher, processor and repository, and the small
 string rules they share.
 */
module Schema {

  const ANCHOR_TYPE := "domain"

  datatype Option<+T> = None | Some(value: T)

  datatype EntityRef = EntityRef(etype: string, value: string, anchor: string, localID: int)

  datatype Result = Result(
    function_: string, etype: string, category: string, value: string,
    applied: bool, outOfScope: bool, tags: seq<string>, anchor: string, localID: int)

  datatype Group = Group(source: EntityRef, results: seq<Result>)

  datatype ReportedError = ReportedError(function_: string, errorType: string)

  /** One packet from the processor to the repository. */
  datatype Packet = Packet(
    moduleName: string, sourceID: nat, groups: seq<Group>,
    functionsWithoutResults: seq<string>, functionRawData: map<string, string>,
    errors: seq<ReportedError>)

  datatype EntityFields = EntityFields(etype: string, value: string, category: string)

  function NormalizeCategory(category: string): string {
    if category == "" then "node" else category
  }

  /** Type and value joined by a colon; different pairs can share a key. */
  function EntityKey(etype: string, value: string): string {
    etype + ":" + value
  }

  function Flatten(groups: seq<Group>): seq<Result> {
    if groups == [] then [] else groups[0].results + Flatten(groups[1..])
  }

  /** The number of tokens a packet stands for: its results, over all groups. */
  function TotalResults(groups: seq<Group>): (n: nat)
    ensures n == |Flatten(groups)|
  {
    if groups == [] then 0 else |groups[0].results| + TotalResults(groups[1..])
  }
}
