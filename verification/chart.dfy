/** The records the views hand to the charting library. */
module Chart {

  /** One slice of a pie chart. */
  datatype Slice = Slice(name: string, value: real)

  /** One bar of a bar chart. */
  datatype Bar = Bar(name: string, value: nat)
}
