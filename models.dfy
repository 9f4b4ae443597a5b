/** The records exchanged with the server's listing endpoint (DirectoryNodes.kt). */
module Models {

  /**
    One remote file as `/tree` reports it. The two dates are ISO-8601 text in
    the source; here they are already parsed to instants on one time line.
   */
  datatype DirectoryTreeNode = DirectoryTreeNode(
    name: string,
    path: string,
    dateCreated: int,
    dateModified: int)
}
