/** The chore vocabulary shared by stations, tasks and the player:
    Assets/Scripts/Chore/ChoreObject.cs. */
module Chores {

  datatype ChoreType = Dishes | Trash | Laundry | Bed | Phone

  /** A chore object as seen through its read-only getters. `id` stands for
      the identity of the scene object, so two objects with equal settings
      are still different objects. Physics, height and throwing are not part
      of the model. */
  datatype ChoreObject = ChoreObject(
    id: nat,
    choreType: ChoreType,
    maxStack: int,
    scoreValue: int,
    clean: bool,
    amount: int)
}
