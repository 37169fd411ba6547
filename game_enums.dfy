/** The game-wide enumerations: the input manager's top-level state and the
    kind of UI interaction it is in. `None` is written `NoState`/`NoUI`. */
module GameEnums {

  datatype GameState = NoState | Playing | UI | Transition

  datatype UIType = NoUI | Dialogue | CutScene | Advice | GameOver | Choice | StageSelect
}
