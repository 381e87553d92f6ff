/** The block states the generators write or inspect. */
module Blocks {

  datatype Block =
    | Air
    | Bedrock
    | Stone
    | Dirt
    | GrassBlock
    | Sand
    | RedSand
    | Sandstone
    | RedSandstone
    | SnowBlock
    | Podzol
    | Water
    | ShortGrass
    | Fern
    | Bush
    | TallGrassLower
    | TallGrassUpper
    | Chest
    | OtherBlock
}
