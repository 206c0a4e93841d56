/**
 * The krb5_error_code values the modelled routines produce themselves.  The
 * numeric values live in generated headers that are not part of this model,
 * so codes are symbolic; Ok stands for 0.
 */
module Krb5Codes {

  datatype Code =
    | Ok                 // 0
    | NoTktSupplied      // KRB5_NO_TKT_SUPPLIED
    | ProgKeytypeNosupp  // KRB5_PROG_KEYTYPE_NOSUPP
    | ProgEtypeNosupp    // KRB5_PROG_ETYPE_NOSUPP
    | NoMemory           // ENOMEM
    | ApErrMsgType       // KRB5KRB_AP_ERR_MSG_TYPE
    | Failed(n: nat)     // any other nonzero code a collaborator returns
}
