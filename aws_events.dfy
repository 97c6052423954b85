/**
 * The closed family of EventBridge event records. Every record embeds the EventBridge
 * envelope with `mapstructure:",squash"`, so the envelope's fields are read from the top
 * level of the message, and carries a `Detail` struct, read from the entry whose key matches
 * "Detail" (in practice "detail"). A detail struct is given as a schema: its fields' Go
 * names, wire keys and Go types.
 */
module AwsEvents {
  import opened Wrappers
  import opened Coercion
  import Rfc3339

  /** The eleven record types, named after their Go structs. */
  datatype Shape =
    | CloudTrailAPICall
    | CloudTrailServiceEvent
    | EC2InstanceLaunchUnsuccessful
    | EC2InstanceLaunchSuccessful
    | EC2InstanceStateChangeNotification
    | EC2InstanceLaunchLifecycleAction
    | EC2InstanceTerminateSuccessful
    | EBSVolumeEventNotification
    | EC2SpotInstanceRequestFulfillment
    | EC2SpotInstanceInterruptionWarning
    | EC2InstanceRebalanceRecommendation

  /** The key of the struct field holding the detail payload (untagged, so its Go name). */
  const DetailKey := "Detail"

  /** The envelope struct AWSEvent: untagged fields are looked up by their Go names. */
  const EnvelopeSchema: seq<Field> := [
    Field("Version", "Version", StringKind),
    Field("ID", "ID", StringKind),
    Field("DetailType", "detail-type", StringKind),
    Field("Source", "Source", StringKind),
    Field("AWSAccountID", "account", StringKind),
    Field("EventTimestamp", "time", TimeKind),
    Field("AWSRegion", "region", StringKind),
    Field("Resources", "Resources", StringSeqKind)
  ]

  const CloudTrailAPICallDetail: seq<Field> := [
    Field("EventVersion", "version", StringKind),
    Field("UserIdentity", "userIdentity", AnyMapKind),
    Field("EventTime", "eventTime", TimeKind),
    Field("EventSource", "eventSource", StringKind),
    Field("EventName", "eventName", StringKind),
    Field("AWSRegion", "awsRegion", StringKind),
    Field("SourceIPAddress", "sourceIPAddress", StringKind),
    Field("UserAgent", "userAgent", StringKind),
    Field("RequestParameters", "requestParameters", AnyMapKind),
    Field("ResponseElements", "responseElements", AnyMapKind),
    Field("RequestID", "requestID", StringKind),
    Field("EventID", "eventID", StringKind),
    Field("EventType", "eventType", StringKind)
  ]

  const CloudTrailServiceEventDetail: seq<Field> := [
    Field("EventSource", "eventSource", StringKind),
    Field("ReadOnly", "readOnly", BoolKind),
    Field("UserIdentity", "userIdentity", AnyMapKind),
    Field("AWSRegion", "awsRegion", StringKind),
    Field("UserAgent", "userAgent", StringKind),
    Field("EventCategory", "eventCategory", StringKind),
    Field("EventVersion", "eventVersion", StringKind),
    Field("EventID", "eventID", StringKind),
    Field("EventTime", "eventTime", TimeKind),
    Field("EventType", "eventType", StringKind),
    Field("ManagementEvent", "managementEvent", BoolKind),
    Field("ServiceEventDetails", "serviceEventDetails", AnyMapKind),
    Field("EventName", "eventName", StringKind),
    Field("SourceIPAddress", "sourceIPAddress", StringKind)
  ]

  const EC2InstanceLaunchUnsuccessfulDetail: seq<Field> := [
    Field("StatusCode", "StatusCode", StringKind),
    Field("AutoScalingGroupName", "AutoScalingGroupName", StringKind),
    Field("ActivityID", "ActivityId", StringKind),
    Field("Details", "Details", StringMapKind),
    Field("RequestID", "requestId", StringKind),
    Field("StatusMessage", "StatusMessage", StringKind),
    Field("EndTime", "EndTime", TimeKind),
    Field("EC2InstanceID", "EC2InstanceId", StringKind),
    Field("StartTime", "StartTime", TimeKind),
    Field("Cause", "Cause", StringKind)
  ]

  const EC2InstanceLaunchSuccessfulDetail: seq<Field> := [
    Field("StatusCode", "StatusCode", StringKind),
    Field("Description", "Description", StringKind),
    Field("AutoScalingGroupName", "AutoScalingGroupName", StringKind),
    Field("ActivityID", "ActivityId", StringKind),
    Field("Details", "Details", StringMapKind),
    Field("RequestID", "requestId", StringKind),
    Field("StatusMessage", "StatusMessage", StringKind),
    Field("EndTime", "EndTime", TimeKind),
    Field("EC2InstanceID", "EC2InstanceId", StringKind),
    Field("StartTime", "StartTime", TimeKind),
    Field("Cause", "Cause", StringKind)
  ]

  const EC2InstanceStateChangeNotificationDetail: seq<Field> := [
    Field("InstanceID", "InstanceID", StringKind),
    Field("State", "State", StringKind)
  ]

  /** The Go field is spelled LicecycleHookName and untagged, so that is its wire key. */
  const EC2InstanceLaunchLifecycleActionDetail: seq<Field> := [
    Field("LifecycleActionToken", "LifecycleActionToken", StringKind),
    Field("AutoScalingGroupName", "AutoScalingGroupName", StringKind),
    Field("LicecycleHookName", "LicecycleHookName", StringKind),
    Field("EC2InstanceID", "EC2InstanceId", StringKind),
    Field("LifecycleTransition", "LifecycleTransition", StringKind),
    Field("NotificationMetadata", "NotificationMetadata", StringKind)
  ]

  const EC2InstanceTerminateSuccessfulDetail: seq<Field> := [
    Field("StatusCode", "StatusCode", StringKind),
    Field("Description", "Description", StringKind),
    Field("AutoScalingGroupName", "AutoScalingGroupName", StringKind),
    Field("ActivityID", "ActivityId", StringKind),
    Field("Details", "Details", StringMapKind),
    Field("RequestID", "RequestId", StringKind),
    Field("StatusMessage", "StatusMessage", StringKind),
    Field("EndTime", "EndTime", TimeKind),
    Field("EC2InstanceID", "EC2InstanceId", StringKind),
    Field("StartTime", "StartTime", TimeKind),
    Field("Cause", "Cause", StringKind)
  ]

  const EBSVolumeEventNotificationDetail: seq<Field> := [
    Field("Result", "result", StringKind),
    Field("Cause", "cause", StringKind),
    Field("Event", "event", StringKind),
    Field("RequestID", "request-id", StringKind)
  ]

  const EC2SpotInstanceRequestFulfillmentDetail: seq<Field> := [
    Field("Description", "description", StringKind),
    Field("SpotInstanceRequestID", "spot-instance-request-id", StringKind),
    Field("InstanceID", "instance-id", StringKind)
  ]

  const EC2SpotInstanceInterruptionWarningDetail: seq<Field> := [
    Field("InstanceID", "instance-id", StringKind),
    Field("InstanceAction", "instance-action", StringKind)
  ]

  const EC2InstanceRebalanceRecommendationDetail: seq<Field> := [
    Field("InstanceID", "instance-id", StringKind)
  ]

  /** The detail struct of each record type. */
  function DetailSchema(shape: Shape): seq<Field>
  {
    match shape
    case CloudTrailAPICall => CloudTrailAPICallDetail
    case CloudTrailServiceEvent => CloudTrailServiceEventDetail
    case EC2InstanceLaunchUnsuccessful => EC2InstanceLaunchUnsuccessfulDetail
    case EC2InstanceLaunchSuccessful => EC2InstanceLaunchSuccessfulDetail
    case EC2InstanceStateChangeNotification => EC2InstanceStateChangeNotificationDetail
    case EC2InstanceLaunchLifecycleAction => EC2InstanceLaunchLifecycleActionDetail
    case EC2InstanceTerminateSuccessful => EC2InstanceTerminateSuccessfulDetail
    case EBSVolumeEventNotification => EBSVolumeEventNotificationDetail
    case EC2SpotInstanceRequestFulfillment => EC2SpotInstanceRequestFulfillmentDetail
    case EC2SpotInstanceInterruptionWarning => EC2SpotInstanceInterruptionWarningDetail
    case EC2InstanceRebalanceRecommendation => EC2InstanceRebalanceRecommendationDetail
  }

  /** The AWSEvent envelope every record embeds. */
  datatype Envelope = Envelope(
    version: string,
    id: string,
    detailType: string,
    source: string,
    awsAccountId: string,
    eventTimestamp: Rfc3339.DateTime,
    awsRegion: string,
    resources: seq<string>)

  /** The typed envelope held by a decoded envelope record. */
  function EnvelopeOf(rec: Record): (e: Envelope)
    requires Conforms(rec, EnvelopeSchema)
  {
    Envelope(rec[0].str, rec[1].str, rec[2].str, rec[3].str, rec[4].str, rec[5].time, rec[6].str, rec[7].elems)
  }

  /** One decoded record: its type, its envelope and its detail struct. */
  datatype Event = Event(shape: Shape, envelope: Envelope, detail: Record)
  {
    /** Every record type answers GenericAWSEventInfo with its embedded envelope. */
    function GenericAWSEventInfo(): Envelope
    {
      envelope
    }
  }

  /** The detail of a record has exactly the fields its type declares, of the declared kinds. */
  predicate WellFormed(ev: Event)
  {
    Conforms(ev.detail, DetailSchema(ev.shape))
  }

}
