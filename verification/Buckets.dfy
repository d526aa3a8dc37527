/** What a Bucket asks for, what a cloud bucket shows, and the patch between them. */
module Buckets {
  import opened Common

  datatype StorageClass = Standard | Warm | Cold | Ice

  /** Only deletion is known to the clouds. */
  datatype Action = DeleteAction | OtherAction(name: string)

  datatype Rule = Rule(name: Option<string>, enabled: bool, ageDays: Option<int>, action: Action)

  datatype GcpConfig = GcpConfig(softDelete: Option<int>)   // retention in seconds

  datatype CloudSpecific = CloudSpecific(gcp: Option<GcpConfig>, yc: bool)

  type Labels = map<string, string>

  datatype Spec = Spec(
    location: string,
    properties: Properties)

  datatype Properties = Properties(
    publicAccessPrevention: Option<bool>,
    versioning: Option<bool>,
    lifecycle: Option<seq<Rule>>,
    storageClass: StorageClass,
    labels: Labels,
    cloudSpecific: Option<CloudSpecific>)

  datatype Attrs = Attrs(name: string, id: string, location: string, properties: Properties)

  datatype Change<+T> = Keep | Set(value: T)

  datatype Patch = Patch(
    storageClass: Change<StorageClass>,
    labels: Change<Labels>,
    versioning: Change<Option<bool>>,
    publicAccessPrevention: Change<Option<bool>>,
    lifecycle: Change<Option<seq<Rule>>>,
    cloudSpecific: Change<Option<CloudSpecific>>)
  {
    predicate HasChanges() {
      storageClass.Set? || labels.Set? || versioning.Set? || publicAccessPrevention.Set?
      || cloudSpecific.Set? || lifecycle.Set?
    }
  }

  const NoChange := Patch(Keep, Keep, Keep, Keep, Keep, Keep)

  function Diff<T(==)>(actual: T, desired: T): Change<T> {
    if actual == desired then Keep else Set(desired)
  }

  function Update<T>(before: T, change: Change<T>): T {
    match change
    case Keep => before
    case Set(v) => v
  }

  /** The outcome of an ensure call: the attributes it reports and whether it wrote to the cloud. */
  datatype Ensured = Ensured(attrs: Attrs, wrote: bool) | Failed
}
