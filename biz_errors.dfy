/** The business exceptions the services throw: a stable error code and,
    for bad requests, the reason the message explains. */
module BizErrors {

  datatype BadRequestReason =
    | ManagedStorageDisabled                 // no managed storage provider key is configured
    | UnknownOrInactivePlan(planId: string)  // the plan id is not in the catalog or is switched off
    | ManagedSubscriptionInvalid             // "managed" chosen without an active plan summary

  datatype BizError =
    | TenantNotFound                         // ErrorCode.TENANT_NOT_FOUND
    | BadRequest(reason: BadRequestReason)   // ErrorCode.COMMON_BAD_REQUEST
}
