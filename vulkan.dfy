/**
 * The few Vulkan notions the renderer's bookkeeping depends on: opaque object
 * handles with a null sentinel, 64-bit device sizes with unsigned wrap-around,
 * and the memory requirements the device reports for a buffer.
 */
module Vulkan {

  /** 2^64: VkDeviceSize is an unsigned 64-bit integer. */
  const U64_LIMIT: nat := 0x1_0000_0000_0000_0000

  /** 2^32: the dynamic uniform offsets are passed as uint32_t. */
  const U32_LIMIT: nat := 0x1_0000_0000

  /** A VkDeviceSize value. */
  type DeviceSize = x: nat | x < U64_LIMIT

  /** Unsigned 64-bit wrap-around of an integer expression. */
  function Wrap64(x: int): DeviceSize
  {
    x % U64_LIMIT
  }

  /** Conversion of a 64-bit value to uint32_t (truncation). */
  function Wrap32(x: int): nat
  {
    x % U32_LIMIT
  }

  type byte = bv8

  /**
   * A non-dispatchable Vulkan handle: either VK_NULL_HANDLE or a live object.
   * The renderer tests handles by truthiness, which is exactly !Null?.
   */
  datatype Handle = Null | Live(id: nat)

  /** What vkGetBufferMemoryRequirements reports for a buffer. */
  datatype MemoryRequirements = MemoryRequirements(size: DeviceSize, alignment: DeviceSize)
}
