/** The values that the document services exchange and store. */
module Documents {
  import opened Wrappers

  newtype Byte = b: int | 0 <= b < 256
  type Bytes = seq<Byte>

  /** The caller: its workspace, role and employee number. */
  datatype Context = Context(workspaceId: string, workspaceName: string, role: string, employeeId: Option<string>)

  datatype Status = Queued | Processing | Completed | Failed

  datatype DocKey = DocKey(workspaceId: string, documentId: string)

  datatype Record = Record(
    documentId: string, workspaceId: string, workspaceName: string, uploadedBy: Option<string>,
    securityLevel: string, filename: string, parser: string, storageKey: string,
    jobId: string, status: Status, error: Option<string>, chunkCount: nat) {

    function Key(): DocKey {
      DocKey(workspaceId, documentId)
    }
  }

  datatype Job = Job(
    jobId: string, workspaceId: string, workspaceName: string, documentId: string, filename: string,
    storageKey: string, uploadedBy: Option<string>, securityLevel: string, attempt: int, maxAttempts: int)

  datatype Dispatch = Dispatch(jobId: string, status: Status, chunkCount: nat, failure: Option<string>)

  /** The name of a point; the source hashes `document_id:index` with uuid5. */
  datatype PointId = PointId(documentId: string, index: nat)

  /** The payload of a point. */
  datatype Point = Point(
    workspaceId: string, workspaceName: string, documentId: string, uploadedBy: Option<string>,
    securityLevel: string, filename: string, parser: string, chunkIndex: nat, chunkText: string)
}
