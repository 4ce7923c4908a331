/** The record kept in the summary history (types.ts). */
module Types {
  import opened Wrappers

  /** A saved summarisation result. `originalFileName` is missing when the text was pasted. */
  datatype SummaryEntry = SummaryEntry(
    id: string,
    date: string,
    processNumber: string,
    summaryTechnical: string,
    summarySimplified: string,
    originalFileName: Option<string>,
    rawText: string)
}
