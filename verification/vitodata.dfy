/**
 The value type of an attribute. Parsing and formatting of wire strings are
 not part of this model, so a type is kept opaque: an enumeration carries
 only its labels, code i standing for labels[i].
 */
module Vitodata {

  datatype VitodataType =
    | TypeDouble
    | TypeDate
    | TypeString
    | Enum(labels: seq<string>)   // built by NewEnum in go-vitotrol
}
