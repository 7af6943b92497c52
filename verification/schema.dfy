/**
 The shape of what the classifier returns: the value `json.loads` produces
 from the model's reply, and the fixed names the consumer looks up in it.
 */
module Schema {

  /** A JSON value as the consumer sees it: a string, an integer, or any
      other value (float, boolean, null, array, object) held opaquely. A
      category value is stored in the output table as it is held here. */
  datatype Value = Str(text: string) | Int(number: int) | Other(repr: string)

  /** A decoded reply: a JSON object (a Python dict), or any other JSON document. */
  datatype Doc = Object(fields: map<string, Value>) | NotObject(repr: string)

  const ClassifyKey: string := "classify"
  const RatingKey: string := "rating"

  /** The eleven review categories the prompt asks about, in the order they are copied. */
  const Categories: seq<string> := [
    "Cleanliness", "Staff Behaviour / Hospitality", "Room Quality / Comfort", "Food & Beverage",
    "Location", "Facilities / Amenities", "Value for Money", "Check-in / Check-out Process",
    "Safety & Security", "Noise Levels", "Maintenance"
  ]

  /** What `analyze_review` returns when no reply decodes. */
  const Fallback: Doc := Object(map[ClassifyKey := Str("Neutral"), RatingKey := Int(0)])
}
