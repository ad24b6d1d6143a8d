/** The controllers that keep a slot record: where each model has its sections, and what buttons are called. */
module PadLayouts {
  import opened Bytes

  /** What an input does, as the controllers number it. */
  type Target = U32

  const NONE: Target := 0
  const START: Target := 0x1
  const L3: Target := 0x2
  const R3: Target := 0x4
  const SELECT: Target := 0x8
  const X: Target := 0x10
  const Y: Target := 0x20
  const RIGHT: Target := 0x40
  const LEFT: Target := 0x80
  const DOWN: Target := 0x100
  const UP: Target := 0x200
  const L1: Target := 0x400
  const R1: Target := 0x800
  const B: Target := 0x1000
  const A: Target := 0x2000
  const L2: Target := 0x4000
  const R2: Target := 0x8000
  const STAR: Target := 0x1_0000
  const HOME: Target := 0x2_0000
  const P5: Target := 0x10_0000
  const P3: Target := 0x20_0000
  const SCREENSHOT: Target := 0x40_0000
  const PADDLE1: Target := 0x200_0000
  const PADDLE2: Target := 0x400_0000
  const P4: Target := 0x4000_0000

  const IN_USE: U32 := 0x2020_0911
  const MOTION_OFF_FLAG: U32 := 0x2019_0000

  const SWITCH: Byte := 0
  const DINPUT: Byte := 1
  const XINPUT: Byte := 3

  const PAD_SLOTS: nat := 3
  const PAD_BUTTONS: nat := 22
  const EXTRA_BUTTONS: nat := 2

  /** Where a model keeps each section of its record; zero for a section it has not. */
  datatype Layout = Layout(
    slots: nat, inputs: nat, crc: nat, names: nat, vibration: nat, sticks: nat, triggers: nat, options: nat, buttons: nat,
    size: nat, macros: nat, motion: nat, tracing: nat, fire: nat, custom: nat, swapPaddleTriggers: bool, arcade: bool,
    buttonLights: nat, combos: nat, ultimateBT: bool)
  {
    predicate HasMotion() { motion != 0 }
    predicate HasLights() { tracing != 0 }
    predicate ArcadePro() { combos != 0 }
    function ButtonSection(): nat { 4 + inputs * 4 }
    function Platform(): nat { crc + 4 }
  }

  const U2 := Layout(3, 22, 0x00c, 0x014, 0x074, 0x098, 0x0b0, 0x0c8, 0x0e0, 0x638, 0x1f4, 0x494, 0x4b8, 0x4dc, 0x50c,
                     false, false, 0, 0, false)
  const U2BT := Layout(3, 22, 0x00c, 0x014, 0x074, 0x098, 0x0b0, 0x0c8, 0x0e0, 0xad0, 0x68c, 0x92c, 0x950, 0x974, 0x9a4,
                       true, false, 0, 0, false)
  const PRO3 := Layout(3, 22, 0x00c, 0x014, 0x074, 0x098, 0x0b0, 0x0c8, 0x0e0, 0x92c, 0x68c, 0, 0, 0, 0,
                       false, false, 0, 0, false)
  const ARCADE := PRO3.(arcade := true)
  const ARCADE_PRO := Layout(2, 24, 0x008, 0x010, 0x050, 0x068, 0x078, 0x088, 0x098, 0xa68, 0x470, 0, 0, 0, 0,
                             false, true, 0x630, 0x920, false)
  const ULTIMATE_BT := Layout(3, 20, 0x00c, 0x014, 0x074, 0x098, 0x0b0, 0x0c8, 0x0e0, 0x914, 0x674, 0, 0, 0, 0,
                              false, false, 0, 0, true)

  predicate KnownLayout(l: Layout) {
    l == U2 || l == U2BT || l == PRO3 || l == ARCADE || l == ARCADE_PRO || l == ULTIMATE_BT
  }
}
