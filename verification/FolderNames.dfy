/** The names of folder sections and their roots, after internal/domain/entities/folder.go. */
module FolderNames {
  const WORKSPACE_ROOT := "root-workspace-files"

  /** Streams share the folders of queries. */
  function FolderEntityType(collection: string): string {
    if collection == "streams" then "queries" else collection
  }

  function RootFolderIdentity(collection: string): string { "root-" + FolderEntityType(collection) }
}
