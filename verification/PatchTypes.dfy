/** The entities of the patch language. */
module PatchTypes {

  datatype UpdateChunk = UpdateChunk(changeContext: string, oldLines: seq<string>, newLines: seq<string>, isEndOfFile: bool)

  datatype Hunk =
    | AddFile(path: string, contents: string)
    | DeleteFile(path: string)
    | UpdateFile(path: string, movePath: string, chunks: seq<UpdateChunk>)

  datatype Patch = Patch(hunks: seq<Hunk>)
}
