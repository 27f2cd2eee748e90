/**
 * The naming helpers of dcargs' `_strings` module. That module is not part of this
 * model, so its functions are taken as parameters: every property proved here holds
 * whatever they compute.
 */
module StringHelpers {

  datatype Helpers = Helpers(
    makeFieldName: seq<string> -> string,     // _strings.make_field_name
    formatMetavar: string -> string,          // _strings.format_metavar
    multiMetavarFromSingle: string -> string, // _strings.multi_metavar_from_single
    dummyFieldName: string                    // _strings.dummy_field_name
  )
}
