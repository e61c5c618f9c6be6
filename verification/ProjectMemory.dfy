/** Memory notes change owner when Projects merge or an Agent leaves one behind. */
module ProjectMemory {
  /** `move_project_memory`: exactly the notes of the source Project get the target as owner. */
  function MoveMemory(notes: map<string, string>, source: string, target: string): map<string, string> {
    map n | n in notes :: if notes[n] == source then target else notes[n]
  }
}
