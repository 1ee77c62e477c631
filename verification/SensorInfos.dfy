/** Sensor descriptions, as far as the proxy looks at them. */
module SensorInfos {
  import opened SensorTypes

  /** The part of a sensor description the proxy looks at. A flag word is the set of its bits. */
  datatype SensorInfo = SensorInfo(sensorHandle: Handle, flags: set<nat>, kind: int, typeAsString: string)

  // bits and values of the sensors HAL interface, android.hardware.sensors@1.0
  const WAKE_UP := 0
  const MASK_DIRECT: set<nat> := {7, 8, 9, 10, 11}  // MASK_DIRECT_REPORT, 0x380, and MASK_DIRECT_CHANNEL, 0xC00
  const PICK_UP_GESTURE := 25

  predicate IsWakeUp(sensor: SensorInfo) {
    WAKE_UP in sensor.flags
  }

  /** The handles of the sensors that advertise WAKE_UP. */
  function WakeHandles(sensors: map<Handle, SensorInfo>): set<Handle> {
    set h | h in sensors && IsWakeUp(sensors[h])
  }
}
